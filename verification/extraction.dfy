/**
 * AdvancedEpisodeRenamer.extract_episode_info: the four patterns in order,
 * the first one that matches decides; without a match, the file name
 * without its extension, season "1", episode "1".
 */
module Extraction {
  import opened Wrappers
  import opened Text
  import opened Patterns

  /** The dict extract_episode_info returns: title, season and episode, all strings. */
  datatype EpisodeInfo = EpisodeInfo(title: string, season: string, episode: string)

  /** The pattern list, in the order the parser tries it. */
  const PatternList: seq<seq<Elem>> := [P1, P2, P3, P4]

  lemma PatternCaptures()
    ensures CaptureCount(P1) == 2 && CaptureCount(P2) == 2
    ensures CaptureCount(P3) == 1 && CaptureCount(P4) == 1
  {
    CapturesP1();
    CapturesP2();
    CapturesP3();
    CapturesP4();
  }

  lemma CapturesP1() ensures CaptureCount(P1) == 2 { assert P1[1..][1..][1..][1..][1..][1..] == []; }
  lemma CapturesP2() ensures CaptureCount(P2) == 2 { assert P2[1..][1..][1..][1..] == []; }
  lemma CapturesP3() ensures CaptureCount(P3) == 1 { assert P3[1..][1..][1..][1..][1..] == []; }
  lemma CapturesP4() ensures CaptureCount(P4) == 1 { assert P4[1..][1..][1..][1..][1..][1..][1..] == []; }

  /**
   * The result built from the groups of a match: the title stripped of
   * ' ._-', the second group as season, the third as episode when there is
   * one and the second again otherwise.
   */
  function FromGroups(g: seq<string>): EpisodeInfo
    requires |g| >= 2
  {
    EpisodeInfo(Strip(g[0], IsTitleJunk), g[1], if |g| > 2 then g[2] else g[1])
  }

  /** The loop over the patterns from index j on. */
  function FirstMatch(filename: string, j: nat): (r: Option<EpisodeInfo>)
    requires j <= |PatternList|
    ensures r.Some? ==> IsNumeral(r.value.season) && IsNumeral(r.value.episode)
    decreases |PatternList| - j
  {
    if j == |PatternList| then None
    else
      var m := Search(PatternList[j], filename);
      if m.Some? && |m.value| >= 2 then Some(FromGroups(m.value))
      else FirstMatch(filename, j + 1)
  }

  /** What the parser returns when no pattern matches. */
  function Fallback(filename: string): EpisodeInfo
  {
    EpisodeInfo(SplitExt(filename).0, "1", "1")
  }

  /** extract_episode_info(filename). */
  function ExtractEpisodeInfo(filename: string): (info: EpisodeInfo)
    ensures IsNumeral(info.season) && IsNumeral(info.episode)
  {
    match FirstMatch(filename, 0)
    case Some(info) => info
    case None => Fallback(filename)
  }

  /** The index of the first pattern that matches, or 4 when none does. */
  ghost function Decider(filename: string): (j: nat)
    ensures j <= |PatternList|
    ensures j < |PatternList| ==> Search(PatternList[j], filename).Some?
    ensures forall m :: 0 <= m < j ==> Search(PatternList[m], filename).None?
  {
    DeciderFrom(filename, 0)
  }

  ghost function DeciderFrom(filename: string, j: nat): (d: nat)
    requires j <= |PatternList|
    ensures j <= d <= |PatternList|
    ensures d < |PatternList| ==> Search(PatternList[d], filename).Some?
    ensures forall m :: j <= m < d ==> Search(PatternList[m], filename).None?
    decreases |PatternList| - j
  {
    if j == |PatternList| || Search(PatternList[j], filename).Some? then j
    else DeciderFrom(filename, j + 1)
  }

  lemma {:induction false} FirstMatchFrom(filename: string, j: nat)
    requires j <= Decider(filename)
    ensures FirstMatch(filename, j) ==
      if Decider(filename) < |PatternList| then Some(FromGroups(Search(PatternList[Decider(filename)], filename).value))
      else None
    decreases |PatternList| - j
  {
    PatternCaptures();
    if j < Decider(filename) {
      FirstMatchFrom(filename, j + 1);
    } else if j < |PatternList| {
      assert CaptureCount(PatternList[j]) >= 1;
    }
  }

  /**
   * The patterns are tried in the listed order: the first one that matches
   * alone decides the result, and with no match the result is the fallback.
   */
  lemma FirstPatternDecides(filename: string)
    ensures Decider(filename) < |PatternList| ==>
      ExtractEpisodeInfo(filename) == FromGroups(Search(PatternList[Decider(filename)], filename).value)
    ensures Decider(filename) == |PatternList| ==> ExtractEpisodeInfo(filename) == Fallback(filename)
  {
    FirstMatchFrom(filename, 0);
  }

  /**
   * A pattern match yields a title with no leading or trailing ' ', '.', '_'
   * or '-'; pattern 1 takes season and episode from its two numbers, and the
   * one-number patterns 3 and 4 use their number for both.
   */
  lemma MatchedShape(filename: string)
    requires Decider(filename) < |PatternList|
    ensures var info := ExtractEpisodeInfo(filename);
      && (info.title == [] || (!IsTitleJunk(info.title[0]) && !IsTitleJunk(info.title[|info.title| - 1])))
      && (Decider(filename) >= 2 ==> info.season == info.episode)
      && (Decider(filename) == 0 ==> (var g := Search(P1, filename).value; info.season == g[1] && info.episode == g[2]))
  {
    FirstPatternDecides(filename);
    var g := Search(PatternList[Decider(filename)], filename).value;
    GroupsShape(g, Decider(filename));
  }

  lemma GroupsShape(g: seq<string>, j: nat)
    requires j < |PatternList| && |g| == 1 + CaptureCount(PatternList[j])
    ensures |g| >= 2
    ensures var info := FromGroups(g);
      && (info.title == [] || (!IsTitleJunk(info.title[0]) && !IsTitleJunk(info.title[|info.title| - 1])))
      && (j >= 2 ==> info.season == info.episode)
      && (j == 0 ==> info.season == g[1] && info.episode == g[2])
  {
    if j == 0 {
      CapturesP1();
      assert PatternList[0] == P1;
    } else if j == 1 {
      CapturesP2();
      assert PatternList[1] == P2;
    } else if j == 2 {
      CapturesP3();
      assert PatternList[2] == P3;
    } else {
      CapturesP4();
      assert PatternList[3] == P4;
    }
    assert FromGroups(g).title == Strip(g[0], IsTitleJunk);
  }

  /**
   * Which title the lazy group takes: for a name without newlines, the
   * deciding pattern's title is the shortest prefix its tail can follow,
   * stripped of ' ._-'.
   */
  lemma TitleIsShortestPrefix(filename: string, k: nat)
    requires Decider(filename) < |PatternList|
    requires forall m :: 0 <= m < |filename| ==> filename[m] != '\n'
    requires 1 <= k <= |filename| && Accepts(PatternList[Decider(filename)], filename, k)
    requires forall k' :: 1 <= k' < k ==> !Accepts(PatternList[Decider(filename)], filename, k')
    ensures ExtractEpisodeInfo(filename).title == Strip(filename[..k], IsTitleJunk)
  {
    FirstPatternDecides(filename);
    var j := Decider(filename);
    SearchTitleShortest(PatternList[j], filename, k);
    GroupsShape(Search(PatternList[j], filename).value, j);
  }

  /** A title with nothing to strip at either end is kept whole. */
  lemma StripPlainTitle(t: string)
    requires t != [] && !IsTitleJunk(t[0]) && !IsTitleJunk(t[|t| - 1])
    ensures Strip(t, IsTitleJunk) == t
  {
    assert TrimStart(t, IsTitleJunk) == t;
  }

  /**
   * extract_episode_info("Show.S02E05.mkv"): pattern 1 decides, giving the
   * title "Show", season "02" and episode "05".
   */
  lemma SampleInfo(s: string)
    requires s == Sample
    ensures ExtractEpisodeInfo(s) == EpisodeInfo("Show", "02", "05")
  {
    SampleSearch(s);
    assert PatternList[0] == P1;
    assert Decider(s) == 0;
    FirstPatternDecides(s);
    StripPlainTitle("Show");
  }

  /** Pattern 2 never decides: whatever it matches, pattern 1 matched first. */
  lemma Pattern2NeverDecides(filename: string)
    ensures Decider(filename) != 1
  {
    if Decider(filename) == 1 {
      Pattern2ImpliesPattern1(filename);
    }
  }

  /** A file name without digits falls back: its stem, season "1", episode "1". */
  lemma NoDigitsFallsBack(filename: string)
    requires forall i :: 0 <= i < |filename| ==> !IsDigit(filename[i])
    ensures ExtractEpisodeInfo(filename) == Fallback(filename)
  {
    PatternsNeedDigits();
    forall j | 0 <= j < |PatternList| ensures Search(PatternList[j], filename).None? {
      NoDigitNoMatch(PatternList[j], filename);
    }
    FirstPatternDecides(filename);
  }

  lemma PatternsNeedDigits()
    ensures forall j :: 0 <= j < |PatternList| ==> NeedsDigit(PatternList[j])
  {
    assert NeedsDigit(P1) && NeedsDigit(P2) && NeedsDigit(P4);
    assert NeedsDigit(P3[1..][1..][1..]);
  }
}
