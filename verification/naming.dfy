/**
 * Naming templates and AdvancedEpisodeRenamer.generate_standard_name.
 *
 * A template is the sequence of pieces of a str.format string restricted to
 * literal text and the fields {title}, {season} and {episode}, each either
 * bare or with a zero-padding spec `:0Nd`.
 */
module Naming {
  import opened Wrappers
  import opened Text

  datatype FieldName = TitleField | SeasonField | EpisodeField

  /** Literal text, or a replacement field `{name}` (zeroPad None) or `{name:0Nd}` (zeroPad Some(N)). */
  datatype Segment = Literal(text: string) | Field(name: FieldName, zeroPad: Option<nat>)

  type Template = seq<Segment>

  /** The value handed to format for a field: a str or an int. */
  datatype Value = Str(s: string) | Int(i: int)

  /** "S{season}E{episode:02d}_{title}", the default of the smart renamer. */
  const SmartDefault: Template :=
    [Literal("S"), Field(SeasonField, None), Literal("E"), Field(EpisodeField, Some(2)),
     Literal("_"), Field(TitleField, None)]

  /** "S{season:02d}E{episode:02d}_{title}", the default of create_custom_episode_mapping. */
  const CustomDefault: Template :=
    [Literal("S"), Field(SeasonField, Some(2)), Literal("E"), Field(EpisodeField, Some(2)),
     Literal("_"), Field(TitleField, None)]

  /** One field formatted: the 'd' presentation type is an error (None) on a str. */
  function FormatValue(v: Value, zeroPad: Option<nat>): Option<string>
  {
    match (v, zeroPad)
    case (Str(s), None) => Some(s)
    case (Str(_), Some(_)) => None
    case (Int(i), None) => Some(IntToString(i))
    case (Int(i), Some(w)) => Some(ZeroPadInt(i, w))
  }

  function Pick(name: FieldName, season: Value, episode: Value, title: Value): Value
  {
    match name
    case TitleField => title
    case SeasonField => season
    case EpisodeField => episode
  }

  /** A field whose spec `format` rejects for the value given. */
  ghost predicate Rejects(t: Template, season: Value, episode: Value, title: Value)
  {
    exists i :: 0 <= i < |t| && t[i].Field? && t[i].zeroPad.Some? && Pick(t[i].name, season, episode, title).Str?
  }

  /** One piece of the template formatted: literal text as it is, a field by its value. */
  function Piece(seg: Segment, season: Value, episode: Value, title: Value): Option<string>
  {
    match seg
    case Literal(x) => Some(x)
    case Field(n, pad) => FormatValue(Pick(n, season, episode, title), pad)
  }

  /** template.format(season=..., episode=..., title=...); None where it raises ValueError. */
  function Render(t: Template, season: Value, episode: Value, title: Value): (r: Option<string>)
  {
    if t == [] then Some("")
    else
      var head := Piece(t[0], season, episode, title);
      var tail := Render(t[1..], season, episode, title);
      if head.Some? && tail.Some? then Some(head.value + tail.value) else None
  }

  /** Formatting fails exactly when some field asks for zero padding of a str value. */
  lemma {:induction false} RenderFailsIff(t: Template, season: Value, episode: Value, title: Value)
    ensures Render(t, season, episode, title).None? <==> Rejects(t, season, episode, title)
  {
    if t != [] {
      RenderFailsIff(t[1..], season, episode, title);
      if Rejects(t[1..], season, episode, title) {
        var i :| 0 <= i < |t[1..]| && t[1..][i].Field? && t[1..][i].zeroPad.Some?
          && Pick(t[1..][i].name, season, episode, title).Str?;
        assert t[i + 1] == t[1..][i];
      }
      if Rejects(t, season, episode, title) {
        var i :| 0 <= i < |t| && t[i].Field? && t[i].zeroPad.Some? && Pick(t[i].name, season, episode, title).Str?;
        if i > 0 { assert t[1..][i - 1] == t[i]; }
      }
    }
  }

  /** format works piece by piece: a template cut in two formats as its two halves, joined. */
  lemma {:induction false} RenderAppend(t1: Template, t2: Template, season: Value, episode: Value, title: Value)
    ensures var a := Render(t1, season, episode, title);
      var b := Render(t2, season, episode, title);
      Render(t1 + t2, season, episode, title) == if a.Some? && b.Some? then Some(a.value + b.value) else None
  {
    if t1 == [] {
      assert t1 + t2 == t2;
      var b := Render(t2, season, episode, title);
      if b.Some? { assert "" + b.value == b.value; }
    } else {
      assert (t1 + t2)[0] == t1[0];
      assert (t1 + t2)[1..] == t1[1..] + t2;
      RenderAppend(t1[1..], t2, season, episode, title);
      var h := Piece(t1[0], season, episode, title);
      var a' := Render(t1[1..], season, episode, title);
      var b := Render(t2, season, episode, title);
      if h.Some? && a'.Some? && b.Some? {
        assert h.value + (a'.value + b.value) == (h.value + a'.value) + b.value;
      }
    }
  }

  /** dict.get(key, default). */
  function Lookup(info: map<string, string>, key: string, default: string): string
  {
    if key in info then info[key] else default
  }

  /** The title as it is substituted: whitespace stripped, unsafe characters replaced by '_'. */
  function CleanTitle(raw: string): string
  {
    Sanitize(Strip(raw, IsSpace))
  }

  /**
   * generate_standard_name(info, template): the season zfilled to 2, the
   * episode read by int(), the title cleaned, substituted into the template;
   * on any error the raw title is returned.
   */
  function GenerateStandardName(info: map<string, string>, template: Template): (name: string)
    ensures ParseInt(Lookup(info, "episode", "1")).None? ==> name == Lookup(info, "title", "Unknown")
  {
    Generate(Lookup(info, "title", "Unknown"), Lookup(info, "season", "1"),
             ParseInt(Lookup(info, "episode", "1")), template)
  }

  /** The body of generate_standard_name once the three entries are read and int() has run. */
  function Generate(raw: string, season: string, episode: Option<int>, template: Template): string
  {
    if episode.None? then raw
    else
      var r := Render(template, Str(ZFill(season, 2)), Int(episode.value), Str(CleanTitle(raw)));
      if r.Some? then r.value else raw
  }

  /**
   * The template zero-pads the season or the title, both of which
   * generate_standard_name passes as str values.
   */
  predicate PadsText(template: Template)
  {
    exists i :: 0 <= i < |template| && template[i].Field? && template[i].name != EpisodeField
                && template[i].zeroPad.Some?
  }

  /**
   * Every error degrades to the raw, unstripped and unsanitised title (or
   * "Unknown" when there is none): an episode int() rejects, or a template
   * that zero-pads the season or the title, which are str values.
   */
  lemma GenerateFallsBack(info: map<string, string>, template: Template)
    requires ParseInt(Lookup(info, "episode", "1")).None? || PadsText(template)
    ensures GenerateStandardName(info, template) == Lookup(info, "title", "Unknown")
  {
    GenerateRaw(Lookup(info, "title", "Unknown"), Lookup(info, "season", "1"),
                ParseInt(Lookup(info, "episode", "1")), template);
  }

  lemma GenerateRaw(raw: string, season: string, episode: Option<int>, template: Template)
    requires episode.None? || PadsText(template)
    ensures Generate(raw, season, episode, template) == raw
  {
    if episode.Some? {
      var sv, ev, tv := Str(ZFill(season, 2)), Int(episode.value), Str(CleanTitle(raw));
      var i :| 0 <= i < |template| && template[i].Field? && template[i].name != EpisodeField
               && template[i].zeroPad.Some?;
      assert Pick(template[i].name, sv, ev, tv).Str?;
      RenderFailsIff(template, sv, ev, tv);
    }
  }

  /**
   * Without those errors, the name is the template formatted with the season
   * zfilled to 2, the episode as int() read it and the cleaned title.
   */
  lemma GenerateRenders(info: map<string, string>, template: Template, n: int)
    requires ParseInt(Lookup(info, "episode", "1")) == Some(n) && !PadsText(template)
    ensures var r := Render(template, Str(ZFill(Lookup(info, "season", "1"), 2)), Int(n),
                            Str(CleanTitle(Lookup(info, "title", "Unknown"))));
      r.Some? && GenerateStandardName(info, template) == r.value
  {
    GenerateRendered(Lookup(info, "title", "Unknown"), Lookup(info, "season", "1"), n, template);
  }

  lemma GenerateRendered(raw: string, season: string, n: int, template: Template)
    requires !PadsText(template)
    ensures var r := Render(template, Str(ZFill(season, 2)), Int(n), Str(CleanTitle(raw)));
      r.Some? && Generate(raw, season, Some(n), template) == r.value
  {
    RendersWithoutTextPad(template, ZFill(season, 2), n, CleanTitle(raw));
  }

  /** Formatting with str season and title and an int episode succeeds unless a text field is padded. */
  lemma RendersWithoutTextPad(template: Template, season: string, n: int, title: string)
    requires !PadsText(template)
    ensures Render(template, Str(season), Int(n), Str(title)).Some?
  {
    var sv, ev, tv := Str(season), Int(n), Str(title);
    forall i | 0 <= i < |template| && template[i].Field? && template[i].zeroPad.Some?
      ensures Pick(template[i].name, sv, ev, tv).Int?
    {
      assert template[i].name == EpisodeField;
    }
    RenderFailsIff(template, sv, ev, tv);
  }

  lemma RenderSmartDefault(season: string, n: int, title: string)
    ensures Render(SmartDefault, Str(season), Int(n), Str(title))
      == Some("S" + season + "E" + ZeroPadInt(n, 2) + "_" + title)
  {
    RenderSmartTemplate(season, Int(n), ZeroPadInt(n, 2), title);
  }

  lemma RenderSmartTemplate(season: string, ev: Value, ep: string, title: string)
    requires FormatValue(ev, Some(2)) == Some(ep)
    ensures Render(SmartDefault, Str(season), ev, Str(title)) == Some("S" + season + "E" + ep + "_" + title)
  {
    var t := SmartDefault;
    var sv, tv := Str(season), Str(title);
    var t5 := [Field(TitleField, None)];
    assert Render(t5[1..], sv, ev, tv) == Some("");
    assert title + "" == title;
    assert Render(t5, sv, ev, tv) == Some(title);
    var t4 := [Literal("_")] + t5;
    assert t4[1..] == t5;
    assert Render(t4, sv, ev, tv) == Some("_" + title);
    var t3 := [Field(EpisodeField, Some(2))] + t4;
    assert t3[1..] == t4;
    assert Render(t3, sv, ev, tv) == Some(ep + ("_" + title));
    var t2 := [Literal("E")] + t3;
    assert t2[1..] == t3;
    assert Render(t2, sv, ev, tv) == Some("E" + (ep + ("_" + title)));
    var t1 := [Field(SeasonField, None)] + t2;
    assert t1[1..] == t2;
    assert Render(t1, sv, ev, tv) == Some(season + ("E" + (ep + ("_" + title))));
    assert t == [Literal("S")] + t1;
    assert t[1..] == t1;
    assert Render(t, sv, ev, tv) == Some("S" + (season + ("E" + (ep + ("_" + title)))));
    assert "S" + (season + ("E" + (ep + ("_" + title)))) == "S" + season + "E" + ep + "_" + title;
  }

  /** Under the default template the name is "S" + season + "E" + episode padded to 2 + "_" + title. */
  lemma SmartDefaultName(info: map<string, string>, n: int)
    requires ParseInt(Lookup(info, "episode", "1")) == Some(n)
    ensures GenerateStandardName(info, SmartDefault) ==
      "S" + ZFill(Lookup(info, "season", "1"), 2) + "E" + ZeroPadInt(n, 2) + "_"
      + CleanTitle(Lookup(info, "title", "Unknown"))
  {
    GenerateDefault(Lookup(info, "title", "Unknown"), Lookup(info, "season", "1"), n);
  }

  lemma GenerateDefault(raw: string, season: string, n: int)
    ensures Generate(raw, season, Some(n), SmartDefault) ==
      "S" + ZFill(season, 2) + "E" + ZeroPadInt(n, 2) + "_" + CleanTitle(raw)
  {
    RenderSmartDefault(ZFill(season, 2), n, CleanTitle(raw));
  }

  /** The episode is rendered from its integer value: "05" and "5" give the same name. */
  lemma EpisodeByValue(info: map<string, string>, a: string, b: string, t: Template)
    requires ParseInt(a) == ParseInt(b)
    ensures GenerateStandardName(info["episode" := a], t) == GenerateStandardName(info["episode" := b], t)
  {
    KeyNamesDiffer();
    LookupOther(info, "episode", a, "title", "Unknown");
    LookupOther(info, "episode", b, "title", "Unknown");
    LookupOther(info, "episode", a, "season", "1");
    LookupOther(info, "episode", b, "season", "1");
  }

  lemma LookupOther(info: map<string, string>, k: string, v: string, key: string, default: string)
    requires key != k
    ensures Lookup(info[k := v], key, default) == Lookup(info, key, default)
  {
  }

  lemma ZeroFiveIsFive()
    ensures ParseInt("05") == ParseInt("5") == Some(5)
  {
    assert IsNumeral("05") && IsNumeral("5");
    NumeralParses("05");
    NumeralParses("5");
    FiveValues();
  }

  lemma FiveValues()
    ensures NumeralValue("5") == 5 && NumeralValue("05") == 5
  {
    assert "05"[..1] == "0" && "0"[..0] == [] && "5"[..0] == [];
    assert NumeralValue("0") == 0;
  }

  /** generate({season: "1", episode: "2", title: "My:Show"}) == "S01E02_My_Show". */
  lemma SmartDefaultExample()
    ensures GenerateStandardName(map["season" := "1", "episode" := "2", "title" := "My:Show"], SmartDefault)
      == "S01E02_My_Show"
  {
    ExampleLookups();
    ParseTwo();
    ZFillOne();
    PadTwo();
    CleanExample();
    GenerateDefault("My:Show", "1", 2);
    ExampleConcat();
  }

  lemma ExampleConcat()
    ensures "S" + "01" + "E" + "02" + "_" + "My_Show" == "S01E02_My_Show"
  {
  }

  lemma ExampleLookups()
    ensures var info := map["season" := "1", "episode" := "2", "title" := "My:Show"];
      Lookup(info, "episode", "1") == "2" && Lookup(info, "season", "1") == "1"
      && Lookup(info, "title", "Unknown") == "My:Show"
  {
    KeyNamesDiffer();
  }

  lemma KeyNamesDiffer()
    ensures "title" != "episode" && "season" != "episode" && "title" != "season"
  {
    assert "title"[0] != "episode"[0] && "season"[0] != "episode"[0] && "title"[0] != "season"[0];
  }

  lemma ZFillOne()
    ensures ZFill("1", 2) == "01"
  {
    assert Repeat('0', 1) == "0";
  }

  lemma ParseTwo()
    ensures ParseInt("2") == Some(2)
  {
    NumeralParses("2");
    assert "2"[..0] == [];
  }

  lemma PadTwo()
    ensures ZeroPadInt(2, 2) == "02"
  {
    assert Decimal(2) == "2";
    assert Repeat('0', 1) == "0";
  }

  lemma CleanExample()
    ensures CleanTitle("My:Show") == "My_Show"
  {
    var t := "My:Show";
    assert !IsSpace(t[0]) && !IsSpace(t[|t| - 1]);
    assert TrimStart(t, IsSpace) == t;
    assert TrimEnd(t, IsSpace) == t;
    assert Sanitize(t) == "My_Show";
  }
}
