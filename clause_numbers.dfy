/**
 * Dotted clause numerals such as "4.2" or "3.1.2", as the group
 * `(\d+(?:\.\d+)+)` captures them, and a model of `re.search` for patterns
 * that put an optional non-digit prefix in front of that group. Both
 * embeddings/generate_embeddings.py and llm/answer_generator.py use such a
 * pattern; each file describes the prefix its pattern allows.
 */
module ClauseNumbers {
  import opened Text
  import opened Values

  /** The end of the run of digits starting at `i` (`\d+` is greedy). */
  function DigitRunEnd(s: string, i: nat): (e: nat)
    requires i <= |s|
    ensures i <= e <= |s|
    ensures forall j :: i <= j < e ==> IsDigit(s[j])
    ensures e == |s| || !IsDigit(s[e])
    decreases |s| - i
  {
    if i < |s| && IsDigit(s[i]) then DigitRunEnd(s, i + 1) else i
  }

  /** One more `\.\d+` group can be matched at `e`. */
  predicate GroupAt(s: string, e: nat) {
    e + 1 < |s| && s[e] == '.' && IsDigit(s[e + 1])
  }

  /** `\d+(?:\.\d+)+` matches at `i`. */
  predicate NumeralAt(s: string, i: nat) {
    i < |s| && IsDigit(s[i]) && GroupAt(s, DigitRunEnd(s, i))
  }

  /** Where the greedy `(?:\.\d+)+` repetition starting at `e` stops. */
  function GroupsEnd(s: string, e: nat): (f: nat)
    requires e <= |s|
    ensures e <= f <= |s| && !GroupAt(s, f)
    ensures forall j :: e <= j < f ==> IsDigit(s[j]) || s[j] == '.'
    ensures forall j :: e <= j < f && s[j] == '.' ==> j + 1 < f && IsDigit(s[j + 1])
    ensures f > e ==> IsDigit(s[f - 1])
    ensures GroupAt(s, e) ==> f >= e + 2
    decreases |s| - e
  {
    if GroupAt(s, e) then
      var next := DigitRunEnd(s, e + 1);
      assert next >= e + 2;
      assert forall j :: e < j < next ==> IsDigit(s[j]);
      GroupsEnd(s, next)
    else e
  }

  /** The end of the numeral matched at `i`. */
  function NumeralEnd(s: string, i: nat): (e: nat)
    requires NumeralAt(s, i)
    ensures i < e <= |s|
  {
    GroupsEnd(s, DigitRunEnd(s, i))
  }

  /** Digits, then one or more groups of a dot followed by digits. */
  predicate IsDottedNumeral(v: string) {
    && |v| >= 3
    && IsDigit(v[0]) && IsDigit(v[|v| - 1])
    && (forall j :: 0 <= j < |v| ==> IsDigit(v[j]) || v[j] == '.')
    && (forall j :: 0 <= j < |v| - 1 && v[j] == '.' ==> IsDigit(v[j + 1]))
    && (exists j :: 0 <= j < |v| && v[j] == '.')
  }

  lemma NumeralIsDotted(s: string, i: nat)
    requires NumeralAt(s, i)
    ensures IsDottedNumeral(s[i..NumeralEnd(s, i)])
  {
    var d := DigitRunEnd(s, i);
    var e := GroupsEnd(s, d);
    assert e >= d + 2 && d > i;
    var v := s[i..e];
    assert v[d - i] == '.';
    forall j | 0 <= j < |v| ensures IsDigit(v[j]) || v[j] == '.' {
      assert v[j] == s[i + j];
    }
    forall j | 0 <= j < |v| - 1 && v[j] == '.' ensures IsDigit(v[j + 1]) {
      assert v[j] == s[i + j] && v[j + 1] == s[i + j + 1];
    }
  }

  /** The leftmost position at or after `i` where a numeral matches. */
  function FirstNumeralFrom(s: string, i: nat): (r: Option<nat>)
    requires i <= |s|
    ensures r.Some? ==> i <= r.value < |s| && NumeralAt(s, r.value)
    ensures r.Some? ==> forall j :: i <= j < r.value ==> !NumeralAt(s, j)
    ensures r.None? ==> forall j :: i <= j < |s| ==> !NumeralAt(s, j)
    decreases |s| - i
  {
    if i == |s| then None
    else if NumeralAt(s, i) then Some(i)
    else FirstNumeralFrom(s, i + 1)
  }

  /**
   * The leftmost dotted numeral of `s`, greedily extended: the reference for
   * what both clause patterns capture.
   */
  function FirstDottedNumeral(s: string): (r: Option<string>)
    ensures r.None? <==> forall j :: 0 <= j < |s| ==> !NumeralAt(s, j)
    ensures r.Some? ==> IsDottedNumeral(r.value)
  {
    match FirstNumeralFrom(s, 0)
    case None => None
    case Some(i) => NumeralIsDotted(s, i); Some(s[i..NumeralEnd(s, i)])
  }

  /** The position where `FirstDottedNumeral` found its numeral. */
  lemma FirstDottedNumeralAt(s: string)
    requires FirstDottedNumeral(s).Some?
    ensures FirstNumeralFrom(s, 0).Some?
    ensures var i := FirstNumeralFrom(s, 0).value;
            FirstDottedNumeral(s).value == s[i..NumeralEnd(s, i)]
  {
  }

  // Searching a prefix `s[..n]` of a text, as `text[:200]` does.

  lemma {:induction false} DigitRunEndInPrefix(s: string, n: nat, i: nat)
    requires i <= n <= |s|
    ensures DigitRunEnd(s[..n], i) == Min(DigitRunEnd(s, i), n)
    decreases |s| - i
  {
    if i < n && IsDigit(s[i]) {
      DigitRunEndInPrefix(s, n, i + 1);
    }
  }

  lemma {:induction false} DigitRunEndWithinRun(s: string, j: nat, i: nat)
    requires j <= |s| && j <= i <= DigitRunEnd(s, j)
    ensures DigitRunEnd(s, i) == DigitRunEnd(s, j)
    decreases i - j
  {
    if j < i {
      assert IsDigit(s[j]);
      DigitRunEndWithinRun(s, j + 1, i);
    }
  }

  /** A numeral starts at `j` in `s[..n]` exactly when it starts there in `s` and its first group fits. */
  lemma NumeralAtInPrefix(s: string, n: nat, j: nat)
    requires j < n <= |s|
    ensures NumeralAt(s[..n], j) <==> NumeralAt(s, j) && DigitRunEnd(s, j) + 1 < n
  {
    DigitRunEndInPrefix(s, n, j);
  }

  lemma {:induction false} GroupsEndInPrefix(s: string, n: nat, e: nat)
    requires e <= n <= |s|
    ensures GroupsEnd(s[..n], e) <= GroupsEnd(s, e)
    decreases |s| - e
  {
    var h := s[..n];
    if GroupAt(h, e) {
      assert h[e] == s[e] && h[e + 1] == s[e + 1];
      assert GroupAt(s, e);
      var next := DigitRunEnd(s, e + 1);
      assert GroupsEnd(s, e) == GroupsEnd(s, next);
      DigitRunEndInPrefix(s, n, e + 1);
      var hnext := DigitRunEnd(h, e + 1);
      assert GroupsEnd(h, e) == GroupsEnd(h, hnext);
      assert hnext == Min(next, n);
      if next <= n {
        GroupsEndInPrefix(s, n, next);
      } else {
        assert !GroupAt(h, n);
        assert GroupsEnd(h, n) == n;
      }
    }
  }

  /** A numeral of `s[..n]` at `i` rules out one of `s` at an earlier `j` that the cut removed. */
  lemma NoEarlierNumeral(s: string, n: nat, i: nat, j: nat)
    requires j < i < n <= |s|
    requires NumeralAt(s[..n], i) && !NumeralAt(s[..n], j)
    ensures !NumeralAt(s, j)
  {
    NumeralAtInPrefix(s, n, i);
    NumeralAtInPrefix(s, n, j);
    if NumeralAt(s, j) {
      var d := DigitRunEnd(s, j);
      if i < d {
        DigitRunEndWithinRun(s, j, i);
      }
    }
  }

  /** The first numeral of `s[..n]`, when there is one, starts where the first numeral of `s` starts. */
  lemma FirstNumeralOfPrefixStarts(s: string, n: nat)
    requires n <= |s| && FirstNumeralFrom(s[..n], 0).Some?
    ensures FirstNumeralFrom(s, 0) == FirstNumeralFrom(s[..n], 0)
  {
    var i := FirstNumeralFrom(s[..n], 0).value;
    NumeralAtInPrefix(s, n, i);
    forall j | 0 <= j < i ensures !NumeralAt(s, j) {
      NoEarlierNumeral(s, n, i, j);
    }
    FirstNumeralFromSkips(s, 0, i);
  }

  /** A numeral at `i` of `s[..n]` is a prefix of the numeral at `i` of `s`. */
  lemma NumeralInPrefixIsPrefix(s: string, n: nat, i: nat)
    requires i < n <= |s| && NumeralAt(s[..n], i)
    ensures NumeralAt(s, i)
    ensures NumeralEnd(s[..n], i) <= NumeralEnd(s, i)
    ensures s[..n][i..NumeralEnd(s[..n], i)] <= s[i..NumeralEnd(s, i)]
  {
    var h := s[..n];
    NumeralAtInPrefix(s, n, i);
    var d := DigitRunEnd(s, i);
    DigitRunEndInPrefix(s, n, i);
    assert DigitRunEnd(h, i) == d;
    GroupsEndInPrefix(s, n, d);
    var eh := NumeralEnd(h, i);
    var es := NumeralEnd(s, i);
    PrefixSliceIsPrefix(s, n, i, eh, es);
  }

  /** A slice of a prefix of `s` is a prefix of the slice of `s` from the same start that reaches at least as far. */
  lemma PrefixSliceIsPrefix(s: string, n: nat, i: nat, eh: nat, es: nat)
    requires i <= eh <= n <= |s| && eh <= es <= |s|
    ensures s[..n][i..eh] <= s[i..es]
  {
    assert s[..n][i..eh] == s[i..eh];
    assert s[i..es][..eh - i] == s[i..eh];
  }

  /**
   * The first numeral of a prefix `s[..n]` starts where the first numeral of
   * `s` starts and is a prefix of it: cutting the text can only cut the
   * numeral short, never move it.
   */
  lemma FirstNumeralOfPrefix(s: string, n: nat)
    requires n <= |s|
    requires FirstDottedNumeral(s[..n]).Some?
    ensures FirstDottedNumeral(s).Some?
    ensures FirstNumeralFrom(s, 0) == FirstNumeralFrom(s[..n], 0)
    ensures FirstDottedNumeral(s[..n]).value <= FirstDottedNumeral(s).value
  {
    FirstDottedNumeralAt(s[..n]);
    FirstNumeralOfPrefixStarts(s, n);
    NumeralInPrefixIsPrefix(s, n, FirstNumeralFrom(s[..n], 0).value);
  }

  /** `FirstNumeralFrom` passes over positions where no numeral starts. */
  lemma {:induction false} FirstNumeralFromSkips(s: string, k: nat, i: nat)
    requires k <= i < |s| && NumeralAt(s, i)
    requires forall j :: k <= j < i ==> !NumeralAt(s, j)
    ensures FirstNumeralFrom(s, k) == Some(i)
    decreases i - k
  {
    if k < i {
      FirstNumeralFromSkips(s, k + 1, i);
    }
  }

  // ---------------------------------------------------------------------
  // re.search for a pattern `<prefix>(\d+(?:\.\d+)+)`
  // ---------------------------------------------------------------------

  /** The end of the run of whitespace starting at `i` (`\s*` is greedy). */
  function SpaceRunEnd(s: string, i: nat): (e: nat)
    ensures i <= e
    ensures i <= |s| ==> e <= |s| && (e == |s| || !IsSpace(s[e]))
    ensures forall j :: i <= j < e ==> j < |s| && IsSpace(s[j])
    decreases |s| - i
  {
    if i < |s| && IsSpace(s[i]) then SpaceRunEnd(s, i + 1) else i
  }

  /** `[hi, hi - 1, ..., lo]`: the order in which a greedy quantifier gives back characters. */
  function Countdown(hi: nat, lo: nat): (r: seq<nat>)
    requires lo <= hi
    ensures |r| == hi - lo + 1 && r[0] == hi && r[|r| - 1] == lo
    ensures forall t :: 0 <= t < |r| ==> lo <= r[t] <= hi && r[t] == hi - t
    decreases hi - lo
  {
    if hi == lo then [lo] else [hi] + Countdown(hi - 1, lo)
  }

  /** Every character from `i` up to `q` is a non-digit. */
  predicate NoDigitsBetween(s: string, i: nat, q: nat) {
    i <= q <= |s| && forall j :: i <= j < q ==> !IsDigit(s[j])
  }

  /**
   * The capture positions a pattern tries at start `i` are sound when the
   * empty prefix is among them and every prefix the pattern consumes is free
   * of digits.
   */
  predicate PrefixSkipsNonDigits(s: string, i: nat, tries: seq<nat>) {
    i in tries && forall t :: 0 <= t < |tries| ==> NoDigitsBetween(s, i, tries[t])
  }

  /** Of the capture positions tried, in backtracking order, the first where the numeral matches. */
  function FirstCapture(s: string, tries: seq<nat>): (r: Option<nat>)
    ensures r.Some? ==> r.value in tries && NumeralAt(s, r.value)
    ensures r.None? ==> forall t :: 0 <= t < |tries| ==> !NumeralAt(s, tries[t])
  {
    if tries == [] then None
    else if NumeralAt(s, tries[0]) then Some(tries[0])
    else FirstCapture(s, tries[1..])
  }

  /**
   * `re.search` from start position `i` on: the pattern is tried at
   * `i, i + 1, ..., |s|` and the first start that matches gives group 1.
   * `tries(s, i)` lists the capture positions the pattern's prefix allows.
   */
  function SearchFrom(s: string, i: nat, tries: (string, nat) -> seq<nat>): Option<string>
    decreases |s| + 1 - i
  {
    if i > |s| then None
    else
      match FirstCapture(s, tries(s, i))
      case Some(q) => Some(s[q..NumeralEnd(s, q)])
      case None => SearchFrom(s, i + 1, tries)
  }

  /** `re.search(pattern, s).group(1)`, or None when nothing matches. */
  function Search(s: string, tries: (string, nat) -> seq<nat>): Option<string> {
    SearchFrom(s, 0, tries)
  }

  /**
   * Whatever non-digit prefix a pattern allows, its first match captures the
   * leftmost dotted numeral: a match starting earlier would need a digit inside
   * the prefix.
   */
  lemma SearchCapturesFirstNumeral(s: string, tries: (string, nat) -> seq<nat>)
    requires forall i :: 0 <= i <= |s| ==> PrefixSkipsNonDigits(s, i, tries(s, i))
    ensures Search(s, tries) == FirstDottedNumeral(s)
  {
    SearchFromFirstNumeral(s, tries, 0);
  }

  lemma {:induction false} SearchFromFirstNumeral(s: string, tries: (string, nat) -> seq<nat>, i: nat)
    requires i <= |s|
    requires forall j :: i <= j <= |s| ==> PrefixSkipsNonDigits(s, j, tries(s, j))
    ensures SearchFrom(s, i, tries) == match FirstNumeralFrom(s, i)
                                       case None => None
                                       case Some(r) => Some(s[r..NumeralEnd(s, r)])
    decreases |s| - i
  {
    assert PrefixSkipsNonDigits(s, i, tries(s, i));
    match FirstCapture(s, tries(s, i))
    case Some(q) =>
      var t :| 0 <= t < |tries(s, i)| && tries(s, i)[t] == q;
      assert NoDigitsBetween(s, i, q);
      assert FirstNumeralFrom(s, i).value == q;
    case None =>
      var t :| 0 <= t < |tries(s, i)| && tries(s, i)[t] == i;
      assert !NumeralAt(s, i);
      if i < |s| {
        SearchFromFirstNumeral(s, tries, i + 1);
      } else {
        assert SearchFrom(s, i + 1, tries) == None;
      }
  }
}
