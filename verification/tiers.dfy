/**
 * Tier resolution: turning a raw tier label from the teachers document into
 * its canonical form, a display label, and a point value.
 *
 * A raw tier is `None` when the JSON value is missing, `undefined` or `null`,
 * and `Some(s)` when it is a string. JavaScript treats the empty string as
 * falsy, which `Truthy` captures.
 */
module Tiers {
  import opened Wrappers

  // ---------------------------------------------------------------------------
  // Strings: trim and upper-case
  // ---------------------------------------------------------------------------

  /** The characters `String.prototype.trim` removes: ECMAScript WhiteSpace and LineTerminator. */
  predicate IsJsWhitespace(c: char) {
    || c == '\t' || c == '\n' || c == '\U{000B}' || c == '\U{000C}' || c == '\r'
    || c == ' ' || c == '\U{00A0}' || c == '\U{1680}'
    || ('\U{2000}' <= c <= '\U{200A}')
    || c == '\U{2028}' || c == '\U{2029}' || c == '\U{202F}' || c == '\U{205F}'
    || c == '\U{3000}' || c == '\U{FEFF}'
  }

  predicate AllWhitespace(s: string) {
    forall k :: 0 <= k < |s| ==> IsJsWhitespace(s[k])
  }

  /** Neither end of `s` is whitespace. */
  predicate IsTrimmed(s: string) {
    s == [] || (!IsJsWhitespace(s[0]) && !IsJsWhitespace(s[|s| - 1]))
  }

  /** Drops leading whitespace: the result is the suffix of `s` after a whitespace run. */
  function TrimStart(s: string): (r: string)
    ensures |r| <= |s| && r == s[|s| - |r|..]
    ensures AllWhitespace(s[..|s| - |r|])
    ensures r == [] || !IsJsWhitespace(r[0])
  {
    if s != [] && IsJsWhitespace(s[0]) then TrimStart(s[1..]) else s
  }

  /** Drops trailing whitespace: the result is the prefix of `s` before a whitespace run. */
  function TrimEnd(s: string): (r: string)
    ensures |r| <= |s| && r == s[..|r|]
    ensures AllWhitespace(s[|r|..])
    ensures r == [] || !IsJsWhitespace(r[|r| - 1])
  {
    if s != [] && IsJsWhitespace(s[|s| - 1]) then TrimEnd(s[..|s| - 1]) else s
  }

  /** `String.prototype.trim`. */
  function Trim(s: string): (r: string)
    ensures IsTrimmed(r)
    ensures |r| <= |s|
  {
    TrimEnd(TrimStart(s))
  }

  /** Upper-cases one character (ASCII letters only, see README). */
  function UpperChar(c: char): (u: char)
    ensures 'a' <= c <= 'z' ==> 'A' <= u <= 'Z' && c as int - u as int == 32
    ensures !('a' <= c <= 'z') ==> u == c
    ensures IsJsWhitespace(u) == IsJsWhitespace(c)
    ensures !('a' <= u <= 'z')
  {
    if 'a' <= c <= 'z' then (c as int - 32) as char else c
  }

  /** `String.prototype.toUpperCase`, character by character. */
  function Upper(s: string): (r: string)
    ensures |r| == |s|
    ensures forall i :: 0 <= i < |r| ==> !('a' <= r[i] <= 'z')
  {
    seq(|s|, i requires 0 <= i < |s| => UpperChar(s[i]))
  }

  // ---------------------------------------------------------------------------
  // The tier resolver (app.js:4-30)
  // ---------------------------------------------------------------------------

  /** JavaScript truthiness of an optional string: present and non-empty. */
  predicate Truthy(t: Option<string>) {
    t.Some? && t.value != ""
  }

  /**
   * normalizeTier: null for a falsy tier, otherwise the trimmed, upper-cased
   * string. A whitespace-only tier is truthy, so it normalizes to "" (not null).
   */
  function NormalizeTier(tier: Option<string>): (r: Option<string>)
    ensures r == None <==> !Truthy(tier)
    ensures r.Some? ==> IsTrimmed(r.value) && Upper(r.value) == r.value
  {
    if !Truthy(tier) then None
    else
      UpperKeepsTrimmed(Trim(tier.value));
      Some(Upper(Trim(tier.value)))
  }

  /** tierLabel: the placeholder "-" for a falsy normalized tier, otherwise the normalized tier. */
  function TierLabel(tier: Option<string>): (r: string)
    ensures Truthy(NormalizeTier(tier)) ==> r == NormalizeTier(tier).value
    ensures r == "-" <==> !Truthy(NormalizeTier(tier)) || NormalizeTier(tier) == Some("-")
  {
    var t := NormalizeTier(tier);
    if !Truthy(t) then "-"
    else if (|t.value| >= 2 && (t.value[..2] == "LT" || t.value[..2] == "HT")) then t.value
    else if |t.value| >= 1 && t.value[..1] == "T" then t.value
    else t.value
  }

  /** top3Class: the medal class for a 1-based rank on the podium, "" otherwise. */
  function Top3Class(rank: int): (cls: string)
    ensures cls == "gold" <==> rank == 1
    ensures cls == "silver" <==> rank == 2
    ensures cls == "bronze" <==> rank == 3
    ensures cls == "" <==> !(1 <= rank <= 3)
  {
    if rank == 1 then "gold"
    else if rank == 2 then "silver"
    else if rank == 3 then "bronze"
    else ""
  }

  /**
   * pointsForTier: the points of the normalized tier in the table, and 0 when
   * the tier is falsy or not a key of the table. It never fails.
   */
  function PointsForTier(pointsByTier: map<string, int>, tier: Option<string>): (points: int)
    ensures !Truthy(NormalizeTier(tier)) ==> points == 0
    ensures Truthy(NormalizeTier(tier)) && NormalizeTier(tier).value !in pointsByTier ==> points == 0
    ensures Truthy(NormalizeTier(tier)) && NormalizeTier(tier).value in pointsByTier ==>
              points == pointsByTier[NormalizeTier(tier).value]
  {
    var t := NormalizeTier(tier);
    if !Truthy(t) then 0
    else if t.value in pointsByTier then pointsByTier[t.value]
    else 0
  }

  // ---------------------------------------------------------------------------
  // Lemmas about trimming and upper-casing
  // ---------------------------------------------------------------------------

  lemma UpperKeepsTrimmed(t: string)
    requires IsTrimmed(t)
    ensures IsTrimmed(Upper(t))
    ensures Upper(Upper(t)) == Upper(t)
  {
  }

  /**
   * Upper-casing turns each lower-case ASCII letter into its capital and
   * leaves every other character as it is.
   */
  lemma UpperLetters(s: string, i: nat)
    requires i < |s|
    ensures 'a' <= s[i] <= 'z' ==> 'A' <= Upper(s)[i] <= 'Z' && s[i] as int - Upper(s)[i] as int == 32
    ensures !('a' <= s[i] <= 'z') ==> Upper(s)[i] == s[i]
  {
  }

  lemma UpperDistributes(a: string, b: string, c: string)
    ensures Upper(a + b + c) == Upper(a) + Upper(b) + Upper(c)
  {
  }

  /** Leading whitespace does not survive TrimStart. */
  lemma {:induction false} TrimStartSkipsPadding(p: string, s: string)
    requires AllWhitespace(p)
    ensures TrimStart(p + s) == TrimStart(s)
  {
    if p == [] {
      assert p + s == s;
    } else {
      assert (p + s)[0] == p[0];
      assert (p + s)[1..] == p[1..] + s;
      TrimStartSkipsPadding(p[1..], s);
    }
  }

  /** Trailing whitespace does not survive TrimEnd. */
  lemma {:induction false} TrimEndSkipsPadding(s: string, q: string)
    requires AllWhitespace(q)
    ensures TrimEnd(s + q) == TrimEnd(s)
  {
    if q == [] {
      assert s + q == s;
    } else {
      assert (s + q)[|s + q| - 1] == q[|q| - 1];
      assert (s + q)[..|s + q| - 1] == s + q[..|q| - 1];
      TrimEndSkipsPadding(s, q[..|q| - 1]);
    }
  }

  /** Trimming a trimmed string padded with whitespace gives the string back. */
  lemma TrimAbsorbsPadding(p: string, t: string, q: string)
    requires AllWhitespace(p) && AllWhitespace(q) && IsTrimmed(t)
    ensures Trim(p + t + q) == t
  {
    assert p + t + q == p + (t + q);
    TrimStartSkipsPadding(p, t + q);
    if t == [] {
      assert t + q == q;
      assert TrimStart(q) == [];
    } else {
      assert (t + q)[0] == t[0];
      assert TrimStart(t + q) == t + q;
      TrimEndSkipsPadding(t, q);
    }
  }

  lemma TrimStartSplit(s: string) returns (lead: string)
    ensures AllWhitespace(lead) && s == lead + TrimStart(s)
  {
    lead := s[..|s| - |TrimStart(s)|];
  }

  lemma TrimEndSplit(s: string) returns (trail: string)
    ensures AllWhitespace(trail) && s == TrimEnd(s) + trail
  {
    trail := s[|TrimEnd(s)|..];
  }

  /** Every string is its trimmed form between two whitespace runs. */
  lemma TrimSplit(s: string) returns (lead: string, trail: string)
    ensures AllWhitespace(lead) && AllWhitespace(trail)
    ensures s == lead + Trim(s) + trail
  {
    lead := TrimStartSplit(s);
    trail := TrimEndSplit(TrimStart(s));
    Reassociate(lead, Trim(s), trail);
  }

  lemma Reassociate(a: string, b: string, c: string)
    ensures a + (b + c) == a + b + c
  {
  }

  lemma Regroup(p: string, a: string, b: string, c: string, q: string)
    ensures p + (a + b + c) + q == (p + a) + b + (c + q)
  {
  }

  lemma WhitespaceConcat(a: string, b: string)
    requires AllWhitespace(a) && AllWhitespace(b)
    ensures AllWhitespace(a + b)
  {
  }

  /** Trim(p + s + q) == Trim(s) for whitespace p and q. */
  lemma TrimIgnoresPadding(p: string, s: string, q: string)
    requires AllWhitespace(p) && AllWhitespace(q)
    ensures Trim(p + s + q) == Trim(s)
  {
    var lead, trail := TrimSplit(s);
    var t := Trim(s);
    WhitespaceConcat(p, lead);
    WhitespaceConcat(trail, q);
    Regroup(p, lead, t, trail, q);
    TrimAbsorbsPadding(p + lead, t, trail + q);
  }

  lemma TrimOfTrimmed(t: string)
    requires IsTrimmed(t)
    ensures Trim(t) == t
  {
    TrimAbsorbsPadding([], t, []);
    assert [] + t + [] == t;
  }

  lemma TrimCommutesWithUpper(s: string)
    ensures Trim(Upper(s)) == Upper(Trim(s))
  {
    var lead, trail := TrimSplit(s);
    var t := Trim(s);
    UpperDistributes(lead, t, trail);
    UpperKeepsTrimmed(t);
    TrimAbsorbsPadding(Upper(lead), Upper(t), Upper(trail));
  }

  // ---------------------------------------------------------------------------
  // Lemmas about the tier resolver
  // ---------------------------------------------------------------------------

  /**
   * normalizeTier is idempotent, except on a whitespace-only label: the first
   * call gives "" (the label is truthy) and the second gives null.
   */
  lemma NormalizeTierIdempotent(tier: Option<string>)
    ensures NormalizeTier(tier) != Some("") ==> NormalizeTier(NormalizeTier(tier)) == NormalizeTier(tier)
    ensures NormalizeTier(tier) == Some("") ==> NormalizeTier(NormalizeTier(tier)) == None
  {
    var n := NormalizeTier(tier);
    if n.Some? {
      TrimOfTrimmed(n.value);
    }
  }

  /** A raw label normalizes to exactly the upper-cased text between its whitespace padding. */
  lemma NormalizeTierOfPadded(p: string, s: string, q: string)
    requires AllWhitespace(p) && AllWhitespace(q) && IsTrimmed(s) && s != ""
    ensures NormalizeTier(Some(p + s + q)) == Some(Upper(s))
  {
    TrimAbsorbsPadding(p, s, q);
  }

  /** Surrounding whitespace does not change whether a label counts, nor what it normalizes to. */
  lemma NormalizeTierIgnoresPadding(p: string, s: string, q: string)
    requires AllWhitespace(p) && AllWhitespace(q)
    ensures Truthy(NormalizeTier(Some(p + s + q))) == Truthy(NormalizeTier(Some(s)))
    ensures s != "" ==> NormalizeTier(Some(p + s + q)) == NormalizeTier(Some(s))
  {
    TrimIgnoresPadding(p, s, q);
    if s == "" {
      assert p + s + q == p + q;
      TrimAbsorbsPadding(p, [], q);
      assert p + [] + q == p + q;
    }
  }

  /** Labels that agree up to letter case normalize to the same tier. */
  lemma NormalizeTierIgnoresCase(a: string, b: string)
    requires Upper(a) == Upper(b)
    ensures NormalizeTier(Some(a)) == NormalizeTier(Some(b))
  {
    assert |a| == |Upper(a)| == |b|;
    TrimCommutesWithUpper(a);
    TrimCommutesWithUpper(b);
    var ta, tb := Trim(a), Trim(b);
    UpperKeepsTrimmed(ta);
    UpperKeepsTrimmed(tb);
  }

  /** The examples " t3 " and "T3" both normalize to "T3". */
  lemma NormalizeTierExample()
    ensures NormalizeTier(Some(" t3 ")) == NormalizeTier(Some("T3")) == Some("T3")
  {
    assert Upper("t3") == "T3" by {
      assert UpperChar('t') == 'T';
    }
    assert NormalizeTier(Some(" t3 ")) == Some("T3") by {
      assert " t3 " == " " + "t3" + " ";
      NormalizeTierOfPadded(" ", "t3", " ");
    }
    assert NormalizeTier(Some("T3")) == Some("T3") by {
      TrimOfTrimmed("T3");
    }
  }

  /** Points fall back to 0 for a missing, empty or whitespace-only tier. */
  lemma PointsForTierDefaults(pointsByTier: map<string, int>, tier: Option<string>)
    ensures tier == None ==> PointsForTier(pointsByTier, tier) == 0
    ensures tier.Some? && AllWhitespace(tier.value) ==> PointsForTier(pointsByTier, tier) == 0
  {
    if tier.Some? && AllWhitespace(tier.value) {
      TrimAbsorbsPadding(tier.value, [], []);
      assert tier.value + [] + [] == tier.value;
    }
  }

  /** Scoring an already normalized tier gives the same points (the detail view does this). */
  lemma PointsForNormalizedTier(pointsByTier: map<string, int>, tier: Option<string>)
    ensures PointsForTier(pointsByTier, NormalizeTier(tier)) == PointsForTier(pointsByTier, tier)
  {
    NormalizeTierIdempotent(tier);
  }

  /** Labelling an already normalized tier gives the same label (the detail view does this). */
  lemma TierLabelOfNormalizedTier(tier: Option<string>)
    ensures TierLabel(NormalizeTier(tier)) == TierLabel(tier)
  {
    NormalizeTierIdempotent(tier);
  }

  /** Points are insensitive to letter case and to surrounding whitespace. */
  lemma PointsIgnoreCaseAndPadding(pointsByTier: map<string, int>, p: string, a: string, q: string, b: string)
    requires AllWhitespace(p) && AllWhitespace(q) && Upper(a) == Upper(b)
    ensures PointsForTier(pointsByTier, Some(p + a + q)) == PointsForTier(pointsByTier, Some(b))
  {
    NormalizeTierIgnoresPadding(p, a, q);
    NormalizeTierIgnoresCase(a, b);
  }
}
