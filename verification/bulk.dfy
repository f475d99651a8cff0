/**
 * bulk_rename_episodes.py: create_custom_episode_mapping, which numbers the
 * video files of a listing in name order, and OpenListBulkRenamer with the
 * token guard of its batch_rename.
 */
module Bulk {
  import opened Wrappers
  import opened Text
  import opened Dicts
  import opened Naming

  /** The 10 extensions create_custom_episode_mapping accepts, compared lower-cased. */
  const BulkVideoExtensions: seq<string> :=
    [".mp4", ".mkv", ".avi", ".mov", ".wmv", ".flv", ".webm", ".m4v", ".mpg", ".mpeg"]

  predicate IsBulkExtension(ext: string)
  {
    ext in BulkVideoExtensions
  }

  predicate IsBulkVideo(e: DirEntry)
  {
    !e.isDir && IsBulkExtension(LowerStr(DotSuffix(e.name)))
  }

  /** The names of the entries `keep` accepts, in listing order. */
  function Names(entries: seq<DirEntry>, keep: DirEntry -> bool): seq<string>
  {
    if entries == [] then []
    else
      var e := entries[|entries| - 1];
      Names(entries[..|entries| - 1], keep) + (if keep(e) then [e.name] else [])
  }

  /** The names the first loop appends to `video_files`, in listing order. */
  function VideoFiles(entries: seq<DirEntry>): seq<string>
  {
    Names(entries, IsBulkVideo)
  }

  /** filename[filename.rfind('.'):], or '' when there is no '.'; the case is kept. */
  function Extension(filename: string): string
  {
    var d := RFind(filename, '.');
    if d != -1 then filename[d..] else ""
  }

  /** f"Episode_{idx:02d}". */
  function EpisodeTitle(idx: int): string
  {
    "Episode_" + ZeroPadInt(idx, 2)
  }

  /** The new name of the idx-th file (1-based); None where format raises. */
  function CustomNewName(scheme: Template, idx: int, filename: string): Option<string>
  {
    var r := Render(scheme, Int(1), Int(idx), Str(EpisodeTitle(idx)));
    if r.None? then None else Some(r.value + Extension(filename))
  }

  /** The mapping the numbering loop builds from the sorted files; None when it raises. */
  function NumberedMapping(files: seq<string>, scheme: Template): Option<Dict>
  {
    if files == [] then Some([])
    else
      var prev := NumberedMapping(files[..|files| - 1], scheme);
      var v := CustomNewName(scheme, |files|, files[|files| - 1]);
      if prev.None? || v.None? then None else Some(Put(prev.value, files[|files| - 1], v.value))
  }

  // ---------------------------------------------------------------- selection

  lemma {:induction false} NamesSpec(entries: seq<DirEntry>, keep: DirEntry -> bool, n: string)
    ensures n in Names(entries, keep) <==> Listed(entries, keep, n)
    decreases |entries|
  {
    if entries != [] {
      NamesSpec(entries[..|entries| - 1], keep, n);
      ListedSnoc(entries, keep, n);
    }
  }

  /** A name is selected exactly when some file entry of the listing has it and an accepted suffix. */
  lemma VideoFilesSpec(entries: seq<DirEntry>, n: string)
    ensures n in VideoFiles(entries) <==>
      exists i :: 0 <= i < |entries| && !entries[i].isDir && entries[i].name == n
        && LowerStr(DotSuffix(n)) in BulkVideoExtensions
  {
    NamesSpec(entries, IsBulkVideo, n);
  }

  /** A name without '.' is never selected: its one-character "suffix" is no extension. */
  lemma NoDotNeverSelected(e: DirEntry)
    requires RFind(e.name, '.') == -1
    ensures !IsBulkVideo(e)
  {
    assert '.' !in e.name;
    var x := LowerStr(DotSuffix(e.name));
    assert |x| <= 1;
    assert forall y :: y in BulkVideoExtensions ==> |y| >= 3;
  }

  /** Every selected name contains a '.', and its extension is its suffix from the last '.'. */
  lemma SelectedHasExtension(e: DirEntry)
    requires IsBulkVideo(e)
    ensures RFind(e.name, '.') >= 0 && Extension(e.name) == DotSuffix(e.name)
  {
    if RFind(e.name, '.') == -1 { NoDotNeverSelected(e); }
  }

  // ---------------------------------------------------------------- numbering

  /** The mapping fails as a whole or not at all: it fails exactly when some earlier prefix fails. */
  lemma {:induction false} NumberedFailureSticks(files: seq<string>, scheme: Template, j: nat)
    requires j <= |files| && NumberedMapping(files[..j], scheme).None?
    ensures NumberedMapping(files, scheme).None?
    decreases |files|
  {
    if j < |files| {
      assert files[..|files| - 1][..j] == files[..j];
      NumberedFailureSticks(files[..|files| - 1], scheme, j);
    } else {
      assert files[..j] == files;
    }
  }

  /** One more file: the mapping of the longer prefix extends the shorter one's, or fails. */
  lemma NumberedExtends(files: seq<string>, scheme: Template, idx: nat, m: Dict)
    requires 1 <= idx <= |files| && NumberedMapping(files[..idx - 1], scheme) == Some(m)
    ensures CustomNewName(scheme, idx, files[idx - 1]).None? ==> NumberedMapping(files[..idx], scheme).None?
    ensures CustomNewName(scheme, idx, files[idx - 1]).Some? ==>
      NumberedMapping(files[..idx], scheme) == Some(Put(m, files[idx - 1], CustomNewName(scheme, idx, files[idx - 1]).value))
  {
    var done := files[..idx];
    assert done[..idx - 1] == files[..idx - 1] && done[idx - 1] == files[idx - 1];
  }

  /** format raises only for a zero-padded {title}, the one str among the values. */
  lemma CustomNewNameFails(scheme: Template, idx: int, filename: string)
    ensures CustomNewName(scheme, idx, filename).None? <==>
      exists i :: 0 <= i < |scheme| && scheme[i].Field? && scheme[i].name == TitleField && scheme[i].zeroPad.Some?
  {
    RenderFailsIff(scheme, Int(1), Int(idx), Str(EpisodeTitle(idx)));
  }

  /** Every key of the mapping occurs once. */
  lemma {:induction false} NumberedMappingDistinct(files: seq<string>, scheme: Template)
    requires NumberedMapping(files, scheme).Some?
    ensures DistinctKeys(NumberedMapping(files, scheme).value)
    decreases |files|
  {
    if files != [] {
      var init := files[..|files| - 1];
      NumberedStep(files, scheme);
      NumberedMappingDistinct(init, scheme);
      PutSpec(NumberedMapping(init, scheme).value, files[|files| - 1],
              CustomNewName(scheme, |files|, files[|files| - 1]).value);
    }
  }

  /** The keys of the mapping are exactly the files. */
  lemma {:induction false} NumberedMappingKeys(files: seq<string>, scheme: Template, k: string)
    requires NumberedMapping(files, scheme).Some?
    ensures k in Keys(NumberedMapping(files, scheme).value) <==> k in files
    decreases |files|
  {
    if files != [] {
      var init, last := files[..|files| - 1], files[|files| - 1];
      assert files == init + [last];
      assert k in files <==> k in init || k == last;
      NumberedStep(files, scheme);
      NumberedMappingKeys(init, scheme, k);
      PutKeys(NumberedMapping(init, scheme).value, last, CustomNewName(scheme, |files|, last).value);
    }
  }

  /** One step of the numbering loop: the last file is put with its new name. */
  lemma NumberedStep(files: seq<string>, scheme: Template)
    requires files != [] && NumberedMapping(files, scheme).Some?
    ensures NumberedMapping(files[..|files| - 1], scheme).Some?
    ensures CustomNewName(scheme, |files|, files[|files| - 1]).Some?
    ensures NumberedMapping(files, scheme).value ==
      Put(NumberedMapping(files[..|files| - 1], scheme).value, files[|files| - 1],
          CustomNewName(scheme, |files|, files[|files| - 1]).value)
  {
  }

  /**
   * The value of a name is its new name at the position of its last
   * occurrence, since a later assignment overwrites an earlier one.
   */
  lemma {:induction false} NumberedMappingValues(files: seq<string>, scheme: Template, j: nat)
    requires NumberedMapping(files, scheme).Some?
    requires j < |files| && forall m :: j < m < |files| ==> files[m] != files[j]
    ensures CustomNewName(scheme, j + 1, files[j]).Some?
    ensures Get(NumberedMapping(files, scheme).value, files[j]) == Some(CustomNewName(scheme, j + 1, files[j]).value)
    decreases |files|
  {
    var init := files[..|files| - 1];
    var last := files[|files| - 1];
    NumberedStep(files, scheme);
    PutSpec(NumberedMapping(init, scheme).value, last, CustomNewName(scheme, |files|, last).value);
    if j < |init| {
      assert init[j] == files[j];
      forall m | j < m < |init| ensures init[m] != init[j] { assert init[m] == files[m]; }
      NumberedMappingValues(init, scheme, j);
    }
  }

  /** Under the default scheme the numbering never raises. */
  lemma {:induction false} CustomDefaultNeverFails(files: seq<string>)
    ensures NumberedMapping(files, CustomDefault).Some?
    decreases |files|
  {
    if files != [] {
      CustomDefaultNeverFails(files[..|files| - 1]);
      CustomDefaultName(|files|, files[|files| - 1]);
    }
  }

  /**
   * The keys of create_custom_episode_mapping's result are exactly the names
   * of the listing's file entries with an accepted extension.
   */
  lemma CustomMappingKeys(contents: seq<DirEntry>, scheme: Template, k: string)
    requires NumberedMapping(Sort(VideoFiles(contents)), scheme).Some?
    ensures k in Keys(NumberedMapping(Sort(VideoFiles(contents)), scheme).value) <==>
      exists i :: 0 <= i < |contents| && !contents[i].isDir && contents[i].name == k
        && LowerStr(DotSuffix(k)) in BulkVideoExtensions
  {
    var files := VideoFiles(contents);
    NumberedMappingKeys(Sort(files), scheme, k);
    VideoFilesSpec(contents, k);
    assert k in Sort(files) <==> k in multiset(Sort(files));
    assert k in files <==> k in multiset(files);
  }

  /** The new name ends with the old name's suffix from its last '.', in its original case. */
  lemma KeepsSuffix(scheme: Template, idx: int, filename: string)
    requires CustomNewName(scheme, idx, filename).Some?
    ensures var v := CustomNewName(scheme, idx, filename).value;
      |v| >= |Extension(filename)| && v[|v| - |Extension(filename)|..] == Extension(filename)
  {
  }

  // ---------------------------------------------------------------- the default scheme

  lemma RenderCustomDefault(season: int, episode: int, title: string)
    ensures Render(CustomDefault, Int(season), Int(episode), Str(title))
      == Some("S" + ZeroPadInt(season, 2) + "E" + ZeroPadInt(episode, 2) + "_" + title)
  {
    RenderCustomTemplate(Int(season), Int(episode), ZeroPadInt(season, 2), ZeroPadInt(episode, 2), title);
  }

  lemma RenderCustomTemplate(sv: Value, ev: Value, sp: string, ep: string, title: string)
    requires FormatValue(sv, Some(2)) == Some(sp) && FormatValue(ev, Some(2)) == Some(ep)
    ensures Render(CustomDefault, sv, ev, Str(title)) == Some("S" + sp + "E" + ep + "_" + title)
  {
    var tv := Str(title);
    var t3 := CustomDefault[3..];
    RenderEpisodeTail(sv, ev, ep, title);
    RenderCons(CustomDefault[2..], sv, ev, tv);
    RenderCons(CustomDefault[1..], sv, ev, tv);
    RenderCons(CustomDefault, sv, ev, tv);
    assert CustomDefault[1..][1..] == CustomDefault[2..] && CustomDefault[2..][1..] == t3;
    assert "S" + (sp + ("E" + (ep + ("_" + title)))) == "S" + sp + "E" + ep + "_" + title;
  }

  /** "{episode:02d}_{title}" */
  lemma RenderEpisodeTail(sv: Value, ev: Value, ep: string, title: string)
    requires FormatValue(ev, Some(2)) == Some(ep)
    ensures Render(CustomDefault[3..], sv, ev, Str(title)) == Some(ep + ("_" + title))
  {
    var tv := Str(title);
    var t := CustomDefault[3..];
    assert t == [Field(EpisodeField, Some(2)), Literal("_"), Field(TitleField, None)];
    assert t[1..][1..][1..] == [];
    assert title + "" == title;
    assert Render(t[1..][1..], sv, ev, tv) == Some(title);
    assert Render(t[1..], sv, ev, tv) == Some("_" + title);
  }

  /** One step of format: the first piece, then the rest. */
  lemma RenderCons(t: Template, season: Value, episode: Value, title: Value)
    requires t != []
    ensures Render(t, season, episode, title) ==
      var head := Piece(t[0], season, episode, title);
      var tail := Render(t[1..], season, episode, title);
      if head.Some? && tail.Some? then Some(head.value + tail.value) else None
  {
  }

  /** The default new name of the k-th file: "S01E" + k padded + "_Episode_" + k padded + suffix. */
  function DefaultName(k: int, ext: string): string
  {
    "S01E" + ZeroPadInt(k, 2) + "_Episode_" + ZeroPadInt(k, 2) + ext
  }

  lemma CustomDefaultName(k: int, filename: string)
    ensures CustomNewName(CustomDefault, k, filename) == Some(DefaultName(k, Extension(filename)))
  {
    var p, e := ZeroPadInt(k, 2), Extension(filename);
    RenderCustomDefault(1, k, EpisodeTitle(k));
    assert ZeroPadInt(1, 2) == "01" by { assert Decimal(1) == "1"; assert Repeat('0', 1) == "0"; }
    DefaultNameParts(p, e);
  }

  lemma DefaultNameParts(p: string, e: string)
    ensures "S" + "01" + "E" + p + "_" + ("Episode_" + p) + e == "S01E" + p + "_Episode_" + p + e
  {
    assert "S" + "01" + "E" == "S01E";
    assert "_" + ("Episode_" + p) == "_Episode_" + p;
  }

  /** Two numerals each followed by '_' compare equal only when the numerals are equal. */
  lemma NumeralPrefix(a: string, b: string, x: string, y: string)
    requires IsNumeral(a) && IsNumeral(b) && a + "_" + x == b + "_" + y
    ensures a == b
  {
    var l, r := a + "_" + x, b + "_" + y;
    UnderscoreEndsNumeral(a, x);
    UnderscoreEndsNumeral(b, y);
    assert |a| == |b|;
    assert a == l[..|a|] && b == r[..|b|];
  }

  /** In a numeral followed by '_', the first '_' is right after the numeral. */
  lemma UnderscoreEndsNumeral(a: string, x: string)
    requires IsNumeral(a)
    ensures (a + "_" + x)[|a|] == '_'
    ensures forall i :: 0 <= i < |a| ==> (a + "_" + x)[i] != '_'
  {
    forall i | 0 <= i < |a| ensures (a + "_" + x)[i] != '_' {
      assert (a + "_" + x)[i] == a[i];
    }
  }

  lemma DefaultNameTail(p: string, e: string)
    ensures ("S01E" + p + "_Episode_" + p + e)[4..] == p + "_" + ("Episode_" + p + e)
  {
  }

  /** Under the default scheme, different positions give different new names. */
  lemma DefaultNamesDistinct(j: nat, k: nat, extJ: string, extK: string)
    requires j != k
    ensures DefaultName(j, extJ) != DefaultName(k, extK)
  {
    var pj, pk := ZeroPadInt(j, 2), ZeroPadInt(k, 2);
    ZeroPadValue(j, 2);
    ZeroPadValue(k, 2);
    DefaultNameTail(pj, extJ);
    DefaultNameTail(pk, extK);
    if DefaultName(j, extJ) == DefaultName(k, extK) {
      NumeralPrefix(pj, pk, "Episode_" + pj + extJ, "Episode_" + pk + extK);
    }
  }

  // ---------------------------------------------------------------- the module function and the class

  /**
   * create_custom_episode_mapping(directory_contents, naming_scheme): select,
   * sort, number from 1. None stands for the ValueError format raises.
   */
  method CreateCustomEpisodeMapping(directoryContents: seq<DirEntry>, namingScheme: Template)
    returns (mapping: Option<Dict>)
    ensures mapping == NumberedMapping(Sort(VideoFiles(directoryContents)), namingScheme)
  {
    var videoFiles := CollectVideoFiles(directoryContents);
    videoFiles := Sort(videoFiles);
    mapping := NumberFiles(videoFiles, namingScheme);
  }

  /** The first loop: the names of the video files, in listing order. */
  method CollectVideoFiles(directoryContents: seq<DirEntry>) returns (videoFiles: seq<string>)
    ensures videoFiles == VideoFiles(directoryContents)
  {
    videoFiles := [];
    for i := 0 to |directoryContents|
      invariant videoFiles == VideoFiles(directoryContents[..i])
    {
      assert directoryContents[..i + 1][..i] == directoryContents[..i];
      assert directoryContents[..i + 1][i] == directoryContents[i];
      var item := directoryContents[i];
      if item.isDir {
        continue;
      }
      var name := item.name;
      var ext := LowerStr(DotSuffix(name));
      assert IsBulkVideo(item) <==> ext in BulkVideoExtensions;
      if ext in BulkVideoExtensions {
        videoFiles := videoFiles + [name];
      }
    }
    assert directoryContents[..|directoryContents|] == directoryContents;
  }

  /** The second loop: each file, numbered from 1, mapped to its new name. */
  method NumberFiles(videoFiles: seq<string>, namingScheme: Template) returns (mapping: Option<Dict>)
    ensures mapping == NumberedMapping(videoFiles, namingScheme)
  {
    var m: Dict := [];
    for idx := 1 to |videoFiles| + 1
      invariant NumberedMapping(videoFiles[..idx - 1], namingScheme) == Some(m)
    {
      var filename := videoFiles[idx - 1];
      var extIdx := RFind(filename, '.');
      var extension := if extIdx != -1 then filename[extIdx..] else "";
      var newFilename := Render(namingScheme, Int(1), Int(idx), Str("Episode_" + ZeroPadInt(idx, 2)));
      NumberedExtends(videoFiles, namingScheme, idx, m);
      if newFilename.None? {
        NumberedFailureSticks(videoFiles, namingScheme, idx);
        return None;
      }
      m := Put(m, filename, newFilename.value + extension);
    }
    assert videoFiles[..|videoFiles|] == videoFiles;
    return Some(m);
  }

  class OpenListBulkRenamer {
    /** The token login stores; None until a login succeeds. */
    var token: Option<string>
    /** Every batch-rename request sent so far. */
    ghost var sent: seq<RenameRequest>

    constructor ()
      ensures token == None && sent == []
    {
      token := None;
      sent := [];
    }

    /** `self.token` is truthy: present and not empty. */
    predicate HasToken()
      reads this
    {
      token.Some? && token.value != ""
    }

    /** login(): `reply` is the token the service hands out, or None when it refuses or fails. */
    method Login(reply: Option<string>) returns (ok: bool)
      modifies this`token
      ensures ok == reply.Some?
      ensures token == if reply.Some? then reply else old(token)
    {
      if reply.Some? {
        token := reply;
        return true;
      }
      return false;
    }

    /**
     * batch_rename(): refused without a token; otherwise one request with
     * one pair per mapping item is sent, and the service's answer returned.
     */
    method BatchRename(srcDir: string, renameMapping: Dict, reply: bool) returns (ok: bool)
      modifies this`sent
      ensures ok == (HasToken() && reply)
      ensures sent == if HasToken() then old(sent) + [RenameRequest(srcDir, RenameObjects(renameMapping))]
                      else old(sent)
    {
      if !HasToken() {
        return false;
      }
      var renameObjects := BuildRenameObjects(renameMapping);
      sent := sent + [RenameRequest(srcDir, renameObjects)];
      return reply;
    }
  }
}
