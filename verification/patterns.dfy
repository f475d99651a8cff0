/**
 * The four regular expressions of the episode parser, run as re.search with
 * IGNORECASE runs them.
 *
 * Every pattern has the shape `(.+?)` followed by a tail built from a few
 * fixed elements. `Run` tries the alternatives of the tail in the order of
 * Python's backtracking engine (greedy runs longest first, `c?` with the
 * character first) and returns the groups of the first success; `Search`
 * tries start positions left to right and, for each, ever longer titles,
 * as the lazy `(.+?)` does. `Accepts` is the declarative reading of a tail
 * (some way through it exists); `RunFindsAMatch` proves that the ordered
 * search succeeds exactly when some way exists.
 */
module Patterns {
  import opened Wrappers
  import opened Text

  /** One element of a pattern after its leading `(.+?)`. */
  datatype Elem =
    | Seps                  // [\s._-]*   greedy
    | Opt(c: char)          // c?         greedy, case-insensitive; c is a lower-case letter
    | Lit(c: char)          // c          case-insensitive; c is a lower-case letter
    | Digits(capture: bool) // (\d+) when capture, else \d+; greedy
    | TwoDigits             // (\d{2})

  /** r'(.+?)[\s._-]*S?(\d+)[\s._-]*E?(\d+)' */
  const P1: seq<Elem> := [Seps, Opt('s'), Digits(true), Seps, Opt('e'), Digits(true)]
  /** r'(.+?)[\s._-]*(\d+)[\s._-]*(\d{2})' */
  const P2: seq<Elem> := [Seps, Digits(true), Seps, TwoDigits]
  /** r'(.+?)[\s._-]*EP?[\s._-]*(\d+)' */
  const P3: seq<Elem> := [Seps, Lit('e'), Opt('p'), Seps, Digits(true)]
  /** r'(.+?)[\s._-]*(\d+)[\s._-]*of[\s._-]*\d+' */
  const P4: seq<Elem> := [Seps, Digits(true), Seps, Lit('o'), Lit('f'), Seps, Digits(false)]

  /** The number of groups a tail captures. */
  function CaptureCount(p: seq<Elem>): nat
  {
    if p == [] then 0
    else (if p[0] == Digits(true) || p[0] == TwoDigits then 1 else 0) + CaptureCount(p[1..])
  }

  /** The length of the longest run of `[\s._-]` at `pos`. */
  function SepRun(s: string, pos: nat): (n: nat)
    requires pos <= |s|
    ensures pos + n <= |s|
    ensures forall i :: pos <= i < pos + n ==> IsSep(s[i])
    ensures pos + n == |s| || !IsSep(s[pos + n])
    decreases |s| - pos
  {
    if pos < |s| && IsSep(s[pos]) then 1 + SepRun(s, pos + 1) else 0
  }

  /** The length of the longest run of digits at `pos`. */
  function DigitRun(s: string, pos: nat): (n: nat)
    requires pos <= |s|
    ensures pos + n <= |s|
    ensures forall i :: pos <= i < pos + n ==> IsDigit(s[i])
    ensures pos + n == |s| || !IsDigit(s[pos + n])
    decreases |s| - pos
  {
    if pos < |s| && IsDigit(s[pos]) then 1 + DigitRun(s, pos + 1) else 0
  }

  /** What a successful run adds to the groups: CaptureCount(p) numerals after `caps`. */
  ghost predicate Extends(p: seq<Elem>, caps: seq<string>, r: Option<seq<string>>)
  {
    r.Some? ==>
      && |r.value| == |caps| + CaptureCount(p)
      && r.value[..|caps|] == caps
      && forall i :: |caps| <= i < |r.value| ==> IsNumeral(r.value[i])
  }

  /**
   * Matches the tail `p` at `pos`, trying alternatives in backtracking order;
   * the groups of the first success, appended to `caps`.
   */
  function Run(p: seq<Elem>, s: string, pos: nat, caps: seq<string>): (r: Option<seq<string>>)
    requires pos <= |s|
    ensures Extends(p, caps, r)
    decreases |p|, 1, 0
  {
    if p == [] then Some(caps)
    else match p[0]
      case Seps => TrySeps(p[1..], s, pos, SepRun(s, pos), caps)
      case Opt(c) =>
        var taken := if pos < |s| && Lower(s[pos]) == c then Run(p[1..], s, pos + 1, caps) else None;
        if taken.Some? then taken else Run(p[1..], s, pos, caps)
      case Lit(c) =>
        if pos < |s| && Lower(s[pos]) == c then Run(p[1..], s, pos + 1, caps) else None
      case Digits(capture) =>
        var n := DigitRun(s, pos);
        if n == 0 then None else TryDigits(p[1..], s, pos, n, capture, caps)
      case TwoDigits =>
        if pos + 2 <= |s| && IsDigit(s[pos]) && IsDigit(s[pos + 1])
        then Run(p[1..], s, pos + 2, caps + [s[pos..pos + 2]])
        else None
  }

  /** A greedy `[\s._-]*` that may take `j` characters: tries j, j - 1, ..., 0. */
  function TrySeps(rest: seq<Elem>, s: string, pos: nat, j: nat, caps: seq<string>): (r: Option<seq<string>>)
    requires pos + j <= |s|
    ensures Extends(rest, caps, r)
    decreases |rest| + 1, 0, j
  {
    var r := Run(rest, s, pos + j, caps);
    if r.Some? || j == 0 then r else TrySeps(rest, s, pos, j - 1, caps)
  }

  /** A greedy `\d+` that may take `len` digits: tries len, len - 1, ..., 1. */
  function TryDigits(rest: seq<Elem>, s: string, pos: nat, len: nat, capture: bool, caps: seq<string>)
    : (r: Option<seq<string>>)
    requires 1 <= len && pos + len <= |s|
    requires forall i :: pos <= i < pos + len ==> IsDigit(s[i])
    ensures Extends([Digits(capture)] + rest, caps, r)
    decreases |rest| + 1, 0, len
  {
    var caps' := if capture then caps + [s[pos..pos + len]] else caps;
    var r := Run(rest, s, pos + len, caps');
    if r.Some? || len == 1 then r else TryDigits(rest, s, pos, len - 1, capture, caps)
  }

  /** Some way through the tail `p` starts at `pos`. */
  ghost predicate Accepts(p: seq<Elem>, s: string, pos: nat)
    requires pos <= |s|
    decreases |p|
  {
    if p == [] then true
    else match p[0]
      case Seps => exists q: nat :: pos <= q <= pos + SepRun(s, pos) && Accepts(p[1..], s, q)
      case Opt(c) =>
        (pos < |s| && Lower(s[pos]) == c && Accepts(p[1..], s, pos + 1)) || Accepts(p[1..], s, pos)
      case Lit(c) => pos < |s| && Lower(s[pos]) == c && Accepts(p[1..], s, pos + 1)
      case Digits(_) => exists q: nat :: pos < q <= pos + DigitRun(s, pos) && Accepts(p[1..], s, q)
      case TwoDigits =>
        pos + 2 <= |s| && IsDigit(s[pos]) && IsDigit(s[pos + 1]) && Accepts(p[1..], s, pos + 2)
  }

  /** The backtracking order loses no match: Run succeeds exactly when the tail can match. */
  lemma {:induction false} RunFindsAMatch(p: seq<Elem>, s: string, pos: nat, caps: seq<string>)
    requires pos <= |s|
    ensures Run(p, s, pos, caps).Some? <==> Accepts(p, s, pos)
    decreases |p|, 1, 0
  {
    if p != [] {
      match p[0]
      case Seps =>
        var j := SepRun(s, pos);
        TrySepsFinds(p[1..], s, pos, j, caps);
        assert Run(p, s, pos, caps) == TrySeps(p[1..], s, pos, j, caps);
      case Opt(c) =>
        RunFindsAMatch(p[1..], s, pos, caps);
        if pos < |s| { RunFindsAMatch(p[1..], s, pos + 1, caps); }
      case Lit(c) =>
        if pos < |s| { RunFindsAMatch(p[1..], s, pos + 1, caps); }
      case Digits(capture) =>
        var n := DigitRun(s, pos);
        if n > 0 { TryDigitsFinds(p[1..], s, pos, n, capture, caps); }
      case TwoDigits =>
        if pos + 2 <= |s| { RunFindsAMatch(p[1..], s, pos + 2, caps + [s[pos..pos + 2]]); }
    }
  }

  lemma {:induction false} TrySepsFinds(rest: seq<Elem>, s: string, pos: nat, j: nat, caps: seq<string>)
    requires pos + j <= |s|
    ensures TrySeps(rest, s, pos, j, caps).Some? ==> exists q: nat :: pos <= q <= pos + j && Accepts(rest, s, q)
    ensures forall q: nat :: pos <= q <= pos + j && Accepts(rest, s, q) ==> TrySeps(rest, s, pos, j, caps).Some?
    decreases |rest| + 1, 0, j
  {
    RunFindsAMatch(rest, s, pos + j, caps);
    if j > 0 { TrySepsFinds(rest, s, pos, j - 1, caps); }
  }

  lemma {:induction false} TryDigitsFinds(rest: seq<Elem>, s: string, pos: nat, len: nat, capture: bool, caps: seq<string>)
    requires 1 <= len && pos + len <= |s|
    requires forall i :: pos <= i < pos + len ==> IsDigit(s[i])
    ensures TryDigits(rest, s, pos, len, capture, caps).Some? ==> exists q: nat :: pos < q <= pos + len && Accepts(rest, s, q)
    ensures forall q: nat :: pos < q <= pos + len && Accepts(rest, s, q) ==> TryDigits(rest, s, pos, len, capture, caps).Some?
    decreases |rest| + 1, 0, len
  {
    var caps' := if capture then caps + [s[pos..pos + len]] else caps;
    RunFindsAMatch(rest, s, pos + len, caps');
    if len > 1 { TryDigitsFinds(rest, s, pos, len - 1, capture, caps); }
  }

  // ---------------------------------------------------------------- which way the engine takes

  /**
   * A greedy `[\s._-]*` that may take up to `j` characters ends at the
   * furthest position `q` after which the rest of the tail can match.
   */
  lemma {:induction false} TrySepsLongest(rest: seq<Elem>, s: string, pos: nat, j: nat, caps: seq<string>, q: nat)
    requires pos <= q <= pos + j <= |s| && Accepts(rest, s, q)
    requires forall q' :: q < q' <= pos + j ==> !Accepts(rest, s, q')
    ensures TrySeps(rest, s, pos, j, caps) == Run(rest, s, q, caps)
    decreases j
  {
    RunFindsAMatch(rest, s, pos + j, caps);
    if q < pos + j {
      TrySepsLongest(rest, s, pos, j - 1, caps, q);
    }
  }

  /**
   * A greedy `\d+` that may take up to `len` digits captures s[pos..q] for
   * the furthest `q` after which the rest of the tail can match.
   */
  lemma {:induction false} TryDigitsLongest(rest: seq<Elem>, s: string, pos: nat, len: nat, capture: bool,
                                             caps: seq<string>, q: nat)
    requires 1 <= len && pos + len <= |s|
    requires forall i :: pos <= i < pos + len ==> IsDigit(s[i])
    requires pos < q <= pos + len && Accepts(rest, s, q)
    requires forall q' :: q < q' <= pos + len ==> !Accepts(rest, s, q')
    ensures TryDigits(rest, s, pos, len, capture, caps) == Run(rest, s, q, if capture then caps + [s[pos..q]] else caps)
    decreases len
  {
    var caps' := if capture then caps + [s[pos..pos + len]] else caps;
    RunFindsAMatch(rest, s, pos + len, caps');
    if q < pos + len {
      TryDigitsLongest(rest, s, pos, len - 1, capture, caps, q);
    }
  }

  /** A leading `[\s._-]*` takes the longest separator run the rest of the tail can follow. */
  lemma RunSepsGreedy(p: seq<Elem>, s: string, pos: nat, caps: seq<string>, q: nat)
    requires p != [] && p[0] == Seps
    requires pos <= |s| && pos <= q <= pos + SepRun(s, pos) && Accepts(p[1..], s, q)
    requires forall q' :: q < q' <= pos + SepRun(s, pos) ==> !Accepts(p[1..], s, q')
    ensures Run(p, s, pos, caps) == Run(p[1..], s, q, caps)
  {
    TrySepsLongest(p[1..], s, pos, SepRun(s, pos), caps, q);
  }

  /** A leading `\d+` takes the longest digit run the rest of the tail can follow, and captures it. */
  lemma RunDigitsGreedy(p: seq<Elem>, s: string, pos: nat, caps: seq<string>, q: nat)
    requires p != [] && p[0].Digits?
    requires pos <= |s| && pos < q <= pos + DigitRun(s, pos) && Accepts(p[1..], s, q)
    requires forall q' :: q < q' <= pos + DigitRun(s, pos) ==> !Accepts(p[1..], s, q')
    ensures Run(p, s, pos, caps) == Run(p[1..], s, q, if p[0].capture then caps + [s[pos..q]] else caps)
  {
    TryDigitsLongest(p[1..], s, pos, DigitRun(s, pos), p[0].capture, caps, q);
  }

  /** An optional letter is taken whenever the rest of the tail can follow it, and skipped only otherwise. */
  lemma RunOptPresentFirst(p: seq<Elem>, s: string, pos: nat, caps: seq<string>)
    requires p != [] && p[0].Opt? && pos <= |s|
    ensures pos < |s| && Lower(s[pos]) == p[0].c && Accepts(p[1..], s, pos + 1) ==>
      Run(p, s, pos, caps) == Run(p[1..], s, pos + 1, caps)
    ensures !(pos < |s| && Lower(s[pos]) == p[0].c && Accepts(p[1..], s, pos + 1)) ==>
      Run(p, s, pos, caps) == Run(p[1..], s, pos, caps)
  {
    if pos < |s| { RunFindsAMatch(p[1..], s, pos + 1, caps); }
  }

  // ---------------------------------------------------------------- re.search

  /** The groups of a match: a non-empty title without newline, then the numerals of the tail. */
  ghost predicate IsMatchGroups(rest: seq<Elem>, g: seq<string>)
  {
    && |g| == 1 + CaptureCount(rest)
    && |g[0]| > 0
    && (forall m :: 0 <= m < |g[0]| ==> g[0][m] != '\n')
    && (forall i :: 1 <= i < |g| ==> IsNumeral(g[i]))
  }

  /**
   * The lazy `(.+?)` from start `i`: the titles s[i..k] for k = i + 1, i + 2, ...
   * in turn, until the tail matches after one; `.` stops at a newline.
   */
  function TryTitle(rest: seq<Elem>, s: string, i: nat, k: nat): (r: Option<seq<string>>)
    requires i < k <= |s|
    requires forall m :: i <= m < k - 1 ==> s[m] != '\n'
    ensures r.Some? ==> IsMatchGroups(rest, r.value)
    decreases |s| - k
  {
    if s[k - 1] == '\n' then None
    else
      var r := Run(rest, s, k, [s[i..k]]);
      if r.Some? then
        assert r.value[..1] == [s[i..k]];
        r
      else if k == |s| then None
      else TryTitle(rest, s, i, k + 1)
  }

  /** re.search: start positions from `i` on, leftmost first. */
  function SearchFrom(rest: seq<Elem>, s: string, i: nat): (r: Option<seq<string>>)
    requires i <= |s|
    ensures r.Some? ==> IsMatchGroups(rest, r.value)
    decreases |s| - i
  {
    if i == |s| then None
    else
      var r := TryTitle(rest, s, i, i + 1);
      if r.Some? then r else SearchFrom(rest, s, i + 1)
  }

  /** re.search(r'(.+?)' + rest, s, re.IGNORECASE).groups(), or None when nothing matches. */
  function Search(rest: seq<Elem>, s: string): (r: Option<seq<string>>)
    ensures r.Some? ==> IsMatchGroups(rest, r.value)
  {
    SearchFrom(rest, s, 0)
  }

  /** Some title (one character, not a newline, suffices) is followed by a match of the tail. */
  ghost predicate Found(rest: seq<Elem>, s: string)
  {
    exists k: nat :: 1 <= k <= |s| && s[k - 1] != '\n' && Accepts(rest, s, k)
  }

  lemma {:induction false} TryTitleSound(rest: seq<Elem>, s: string, i: nat, k: nat)
    requires i < k <= |s|
    requires forall m :: i <= m < k - 1 ==> s[m] != '\n'
    requires TryTitle(rest, s, i, k).Some?
    ensures Found(rest, s)
    decreases |s| - k
  {
    RunFindsAMatch(rest, s, k, [s[i..k]]);
    if !Run(rest, s, k, [s[i..k]]).Some? {
      TryTitleSound(rest, s, i, k + 1);
    }
  }

  lemma {:induction false} SearchFromSound(rest: seq<Elem>, s: string, i: nat)
    requires i <= |s| && SearchFrom(rest, s, i).Some?
    ensures Found(rest, s)
    decreases |s| - i
  {
    if TryTitle(rest, s, i, i + 1).Some? {
      TryTitleSound(rest, s, i, i + 1);
    } else {
      SearchFromSound(rest, s, i + 1);
    }
  }

  lemma {:induction false} SearchFromComplete(rest: seq<Elem>, s: string, i: nat, k: nat)
    requires i < k <= |s| && s[k - 1] != '\n' && Accepts(rest, s, k)
    ensures SearchFrom(rest, s, i).Some?
    decreases |s| - i
  {
    if !TryTitle(rest, s, i, i + 1).Some? {
      if i + 1 == k {
        RunFindsAMatch(rest, s, k, [s[i..k]]);
        assert false;
      }
      SearchFromComplete(rest, s, i + 1, k);
    }
  }

  /** re.search finds a match exactly when some title can be followed by the tail. */
  lemma SearchFindsAMatch(rest: seq<Elem>, s: string)
    ensures Search(rest, s).Some? <==> Found(rest, s)
  {
    if Search(rest, s).Some? {
      SearchFromSound(rest, s, 0);
    }
    if Found(rest, s) {
      var k: nat :| 1 <= k <= |s| && s[k - 1] != '\n' && Accepts(rest, s, k);
      SearchFromComplete(rest, s, 0, k);
    }
  }

  /**
   * The lazy title: on a line without newlines, the match starts at 0 and
   * its title is the shortest prefix s[..k] after which the tail can match.
   */
  lemma {:induction false} SearchTitleShortest(rest: seq<Elem>, s: string, k: nat)
    requires 1 <= k <= |s|
    requires forall m :: 0 <= m < |s| ==> s[m] != '\n'
    requires Accepts(rest, s, k)
    requires forall k' :: 1 <= k' < k ==> !Accepts(rest, s, k')
    ensures Search(rest, s).Some? && Search(rest, s).value[0] == s[..k]
    ensures Search(rest, s) == Run(rest, s, k, [s[..k]])
  {
    TryTitleShortest(rest, s, 1, k);
  }

  lemma {:induction false} TryTitleShortest(rest: seq<Elem>, s: string, j: nat, k: nat)
    requires 1 <= j <= k <= |s|
    requires forall m :: 0 <= m < |s| ==> s[m] != '\n'
    requires Accepts(rest, s, k)
    requires forall k' :: j <= k' < k ==> !Accepts(rest, s, k')
    ensures TryTitle(rest, s, 0, j).Some? && TryTitle(rest, s, 0, j).value[0] == s[..k]
    ensures TryTitle(rest, s, 0, j) == Run(rest, s, k, [s[..k]])
    decreases k - j
  {
    RunFindsAMatch(rest, s, j, [s[0..j]]);
    if j < k {
      TryTitleShortest(rest, s, j + 1, k);
    } else {
      var r := Run(rest, s, j, [s[0..j]]);
      assert s[0..j] == s[..k];
      assert r.value[..1] == [s[0..j]];
    }
  }

  // ---------------------------------------------------------------- properties of the four patterns

  /** A way through a tail starting with separators continues from some point of the run. */
  lemma SepsStep(p: seq<Elem>, s: string, pos: nat) returns (q: nat)
    requires pos <= |s| && p != [] && p[0] == Seps && Accepts(p, s, pos)
    ensures pos <= q <= pos + SepRun(s, pos) && Accepts(p[1..], s, q)
  {
    q :| pos <= q <= pos + SepRun(s, pos) && Accepts(p[1..], s, q);
  }

  /** A way through a tail starting with digits continues after a non-empty part of the run. */
  lemma DigitsStep(p: seq<Elem>, s: string, pos: nat) returns (q: nat)
    requires pos <= |s| && p != [] && p[0].Digits? && Accepts(p, s, pos)
    ensures pos < q <= pos + DigitRun(s, pos) && Accepts(p[1..], s, q)
  {
    q :| pos < q <= pos + DigitRun(s, pos) && Accepts(p[1..], s, q);
  }

  /** A way through the tail of pattern 2: separators to q1, season to q2, separators to q3, two digits. */
  lemma P2Way(s: string, k: nat) returns (q1: nat, q2: nat, q3: nat)
    requires k <= |s| && Accepts(P2, s, k)
    ensures k <= q1 <= k + SepRun(s, k)
    ensures q1 < q2 <= q1 + DigitRun(s, q1)
    ensures q2 <= q3 <= q2 + SepRun(s, q2)
    ensures q3 < |s| && IsDigit(s[q3])
  {
    var a := [Digits(true), Seps, TwoDigits];
    var b := [Seps, TwoDigits];
    var c := [TwoDigits];
    q1 := SepsStep(P2, s, k);
    assert P2[1..] == a;
    q2 := DigitsStep(a, s, q1);
    assert a[1..] == b;
    q3 := SepsStep(b, s, q2);
    assert b[1..] == c;
  }

  /** The same way through pattern 1: no S, no E, and an episode of one digit. */
  lemma P1Way(s: string, k: nat, q1: nat, q2: nat, q3: nat)
    requires k <= |s| && k <= q1 <= k + SepRun(s, k)
    requires q1 < q2 <= q1 + DigitRun(s, q1)
    requires q2 <= q3 <= q2 + SepRun(s, q2)
    requires q3 < |s| && IsDigit(s[q3])
    ensures Accepts(P1, s, k)
  {
    var t3 := [Seps, Opt('e'), Digits(true)];
    P1Episode(s, q3);
    assert t3[1..] == [Opt('e'), Digits(true)];
    assert Accepts(t3, s, q2);
    var t1 := [Opt('s'), Digits(true), Seps, Opt('e'), Digits(true)];
    var t2 := [Digits(true)] + t3;
    assert t1[1..] == t2 && t2[1..] == t3;
    assert Accepts(t2, s, q1);
    assert Accepts(t1, s, q1);
    assert P1[1..] == t1;
  }

  lemma P1Episode(s: string, q: nat)
    requires q < |s| && IsDigit(s[q])
    ensures Accepts([Opt('e'), Digits(true)], s, q)
  {
    var t5 := [Digits(true)];
    assert [Opt('e'), Digits(true)][1..] == t5;
    assert t5[1..] == [];
    assert Accepts(t5[1..], s, q + 1);
    assert Accepts(t5, s, q);
  }

  /** Wherever the tail of pattern 2 matches, the tail of pattern 1 matches too. */
  lemma P2TailImpliesP1Tail(s: string, k: nat)
    requires k <= |s| && Accepts(P2, s, k)
    ensures Accepts(P1, s, k)
  {
    var q1, q2, q3 := P2Way(s, k);
    P1Way(s, k, q1, q2, q3);
  }

  /** Every filename that pattern 2 matches is matched by pattern 1 already. */
  lemma Pattern2ImpliesPattern1(s: string)
    requires Search(P2, s).Some?
    ensures Search(P1, s).Some?
  {
    SearchFindsAMatch(P2, s);
    SearchFindsAMatch(P1, s);
    var k: nat :| 1 <= k <= |s| && s[k - 1] != '\n' && Accepts(P2, s, k);
    P2TailImpliesP1Tail(s, k);
  }

  /** The tail cannot match without reading a digit. */
  predicate NeedsDigit(p: seq<Elem>)
  {
    p != [] && (p[0].Digits? || p[0].TwoDigits? || NeedsDigit(p[1..]))
  }

  lemma {:induction false} NoDigitNoTail(p: seq<Elem>, s: string, pos: nat)
    requires pos <= |s| && NeedsDigit(p)
    requires forall i :: pos <= i < |s| ==> !IsDigit(s[i])
    ensures !Accepts(p, s, pos)
    decreases |p|
  {
    match p[0]
    case Seps =>
      forall q: nat | pos <= q <= pos + SepRun(s, pos) ensures !Accepts(p[1..], s, q) {
        NoDigitNoTail(p[1..], s, q);
      }
    case Opt(c) =>
      NoDigitNoTail(p[1..], s, pos);
      if pos < |s| { NoDigitNoTail(p[1..], s, pos + 1); }
    case Lit(c) =>
      if pos < |s| { NoDigitNoTail(p[1..], s, pos + 1); }
    case Digits(_) =>
    case TwoDigits =>
  }

  /** A filename without digits matches none of the patterns. */
  lemma NoDigitNoMatch(rest: seq<Elem>, s: string)
    requires NeedsDigit(rest)
    requires forall i :: 0 <= i < |s| ==> !IsDigit(s[i])
    ensures Search(rest, s).None?
  {
    SearchFindsAMatch(rest, s);
    if Found(rest, s) {
      var k: nat :| 1 <= k <= |s| && s[k - 1] != '\n' && Accepts(rest, s, k);
      NoDigitNoTail(rest, s, k);
    }
  }

  // ---------------------------------------------------------------- a worked example

  /** A typical episode file name, used to illustrate pattern 1. */
  const Sample: string := "Show.S02E05.mkv"

  /** Pattern 1's tail cannot start at a character that is no separator, no 's' and no digit. */
  lemma P1NotAt(s: string, pos: nat, caps: seq<string>)
    requires pos < |s| && !IsSep(s[pos]) && Lower(s[pos]) != 's' && !IsDigit(s[pos])
    ensures Run(P1, s, pos, caps).None?
  {
    assert P1[1..][1..] == [Digits(true), Seps, Opt('e'), Digits(true)];
  }

  /** 'E' and then exactly two digits: pattern 1's episode part, ending the tail. */
  lemma EpisodeAt(s: string, pos: nat, caps: seq<string>)
    requires pos + 3 <= |s| && Lower(s[pos]) == 'e' && !IsSep(s[pos])
    requires IsDigit(s[pos + 1]) && IsDigit(s[pos + 2]) && (pos + 3 == |s| || !IsDigit(s[pos + 3]))
    ensures Run(P1[3..], s, pos, caps) == Some(caps + [s[pos + 1..pos + 3]])
  {
    assert DigitRun(s, pos + 1) == 2;
    var r := Run([Digits(true)], s, pos + 1, caps);
    assert r == TryDigits([], s, pos + 1, 2, true, caps) == Some(caps + [s[pos + 1..pos + 3]]);
    assert [Opt('e'), Digits(true)][1..] == [Digits(true)];
    assert Run([Opt('e'), Digits(true)], s, pos, caps) == r;
    assert SepRun(s, pos) == 0;
    assert P1[3..][0] == Seps && P1[3..][1..] == [Opt('e'), Digits(true)];
  }

  /** Exactly two digits, then 'E' and exactly two digits: the season and the episode. */
  lemma SeasonAt(s: string, pos: nat, caps: seq<string>)
    requires pos + 5 <= |s| && IsDigit(s[pos]) && IsDigit(s[pos + 1]) && !IsDigit(s[pos + 2])
    requires Lower(s[pos + 2]) == 'e' && !IsSep(s[pos + 2])
    requires IsDigit(s[pos + 3]) && IsDigit(s[pos + 4]) && (pos + 5 == |s| || !IsDigit(s[pos + 5]))
    ensures Run(P1[2..], s, pos, caps) == Some(caps + [s[pos..pos + 2], s[pos + 3..pos + 5]])
  {
    EpisodeAt(s, pos + 2, caps + [s[pos..pos + 2]]);
    assert DigitRun(s, pos) == 2;
    assert P1[2..][0] == Digits(true) && P1[2..][1..] == P1[3..];
    assert caps + [s[pos..pos + 2]] + [s[pos + 3..pos + 5]] == caps + [s[pos..pos + 2], s[pos + 3..pos + 5]];
  }

  /** 'S', exactly two digits, 'E', exactly two digits: `S?` takes the 'S'. */
  lemma SeasonEpisodeAt(s: string, pos: nat, caps: seq<string>)
    requires pos + 6 <= |s| && Lower(s[pos]) == 's' && Lower(s[pos + 3]) == 'e' && !IsSep(s[pos + 3])
    requires IsDigit(s[pos + 1]) && IsDigit(s[pos + 2]) && !IsDigit(s[pos + 3])
    requires IsDigit(s[pos + 4]) && IsDigit(s[pos + 5]) && (pos + 6 == |s| || !IsDigit(s[pos + 6]))
    ensures Run(P1[1..], s, pos, caps) == Some(caps + [s[pos + 1..pos + 3], s[pos + 4..pos + 6]])
  {
    SeasonAt(s, pos + 1, caps);
    assert P1[1..][0] == Opt('s') && P1[1..][1..] == P1[2..];
  }

  /** At k: one separator, then 'S', exactly two digits, 'E', exactly two digits. */
  predicate SeasonEpisodeMarkAt(s: string, k: nat)
  {
    && k + 7 <= |s| && IsSep(s[k]) && !IsSep(s[k + 1]) && Lower(s[k + 1]) == 's'
    && IsDigit(s[k + 2]) && IsDigit(s[k + 3]) && !IsDigit(s[k + 4])
    && Lower(s[k + 4]) == 'e' && !IsSep(s[k + 4])
    && IsDigit(s[k + 5]) && IsDigit(s[k + 6]) && (k + 7 == |s| || !IsDigit(s[k + 7]))
  }

  /** Pattern 1's whole tail at such a mark: the two numerals. */
  lemma P1At(s: string, k: nat, caps: seq<string>)
    requires SeasonEpisodeMarkAt(s, k)
    ensures Run(P1, s, k, caps) == Some(caps + [s[k + 2..k + 4], s[k + 5..k + 7]])
    ensures Accepts(P1, s, k)
  {
    SeasonEpisodeAt(s, k + 1, caps);
    assert SepRun(s, k) == 1;
    assert P1[0] == Seps;
    RunFindsAMatch(P1, s, k, caps);
  }

  /** After its first character, a title with no separator, 's' or digit, ending at k. */
  predicate PlainTitle(s: string, k: nat)
  {
    k <= |s| && forall m :: 1 <= m < k ==> !IsSep(s[m]) && Lower(s[m]) != 's' && !IsDigit(s[m])
  }

  /** Pattern 1's tail starts at no position inside such a title. */
  lemma P1NotInside(s: string, k: nat)
    requires PlainTitle(s, k)
    ensures forall k' :: 1 <= k' < k ==> !Accepts(P1, s, k')
  {
    forall k' | 1 <= k' < k
      ensures !Accepts(P1, s, k')
    {
      P1NotAt(s, k', [s[..k']]);
      RunFindsAMatch(P1, s, k', [s[..k']]);
    }
  }

  /**
   * A newline-free name made of a plain title, one separator, then 'S', two
   * digits, 'E', two digits: pattern 1 captures exactly that title, season
   * and episode.
   */
  lemma SearchSeasonEpisode(s: string, k: nat)
    requires 1 <= k && PlainTitle(s, k) && SeasonEpisodeMarkAt(s, k)
    requires forall m :: 0 <= m < |s| ==> s[m] != '\n'
    ensures Search(P1, s) == Some([s[..k], s[k + 2..k + 4], s[k + 5..k + 7]])
  {
    var caps := [s[..k]];
    P1At(s, k, caps);
    P1NotInside(s, k);
    SearchTitleShortest(P1, s, k);
    assert caps + [s[k + 2..k + 4], s[k + 5..k + 7]] == [s[..k], s[k + 2..k + 4], s[k + 5..k + 7]];
  }

  /** The title, season and episode slices of the sample name. */
  lemma SampleGroups(s: string)
    requires s == Sample
    ensures [s[..4], s[6..8], s[9..11]] == ["Show", "02", "05"]
  {
    assert s[..4] == "Show";
    assert s[6..8] == "02";
    assert s[9..11] == "05";
  }

  /**
   * re.search(pattern 1, "Show.S02E05.mkv") captures the title "Show", the
   * season "02" and the episode "05": the lazy title stops before the '.',
   * the greedy separators take it, 'S' and 'E' are taken by `S?` and `E?`.
   */
  lemma SampleSearch(s: string)
    requires s == Sample
    ensures Search(P1, s) == Some(["Show", "02", "05"])
  {
    assert |s| == 15;
    assert s[1] == 'h' && s[2] == 'o' && s[3] == 'w' && s[4] == '.';
    assert s[5] == 'S' && s[6] == '0' && s[7] == '2' && s[8] == 'E' && s[9] == '0' && s[10] == '5' && s[11] == '.';
    forall m | 0 <= m < |s| ensures s[m] != '\n' {}
    SearchSeasonEpisode(s, 4);
    SampleGroups(s);
  }
}
