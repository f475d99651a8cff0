/**
 * AdvancedEpisodeRenamer (advanced_episode_renamer.py): the smart mapping
 * from a directory listing, and the two rename entry points that either
 * stop, report a dry run, or hand the mapping to batch_rename.
 *
 * The service is not modelled: each reply it would give is a parameter
 * (`served` for the listing, `reply` for the outcome of a batch rename,
 * the token for a login), and the ghost field `sent` records every
 * batch-rename request the object sends.
 */
module Advanced {
  import opened Wrappers
  import opened Text
  import opened Dicts
  import opened Extraction
  import opened Naming

  /** The 14 extensions the smart mapping accepts, compared lower-cased. */
  const VideoExtensions: set<string> :=
    {".mp4", ".mkv", ".avi", ".mov", ".wmv", ".flv", ".webm", ".m4v", ".mpg", ".mpeg", ".ts",
     ".m2ts", ".vob", ".iso"}

  /** os.path.splitext(name)[1].lower(). */
  function SmartExtension(name: string): string
  {
    LowerStr(SplitExt(name).1)
  }

  predicate IsSmartVideo(e: DirEntry)
  {
    !e.isDir && SmartExtension(e.name) in VideoExtensions
  }

  /** The dict extract_episode_info returns. */
  function AsDict(info: EpisodeInfo): map<string, string>
  {
    map["title" := info.title, "season" := info.season, "episode" := info.episode]
  }

  /** The new name of a selected file: the generated name, then its lower-cased extension. */
  function SmartNewName(name: string, template: Template): string
  {
    var ext := SmartExtension(name);
    GenerateStandardName(AsDict(ExtractEpisodeInfo(name))["extension" := ext], template) + ext
  }

  /** The mapping the loop of create_smart_rename_mapping builds from the entries. */
  function SmartMapping(entries: seq<DirEntry>, template: Template): Dict
  {
    if entries == [] then []
    else
      var d := SmartMapping(entries[..|entries| - 1], template);
      var e := entries[|entries| - 1];
      if IsSmartVideo(e) then Put(d, e.name, SmartNewName(e.name, template)) else d
  }

  /** Some file entry with one of the 14 extensions has this name. */
  ghost predicate Selected(entries: seq<DirEntry>, name: string)
  {
    Listed(entries, IsSmartVideo, name)
  }

  /** The smart mapping has each selected name once as a key, and no other key. */
  lemma {:induction false} SmartMappingKeys(entries: seq<DirEntry>, template: Template)
    ensures DistinctKeys(SmartMapping(entries, template))
    ensures forall k :: k in Keys(SmartMapping(entries, template)) <==> Selected(entries, k)
    decreases |entries|
  {
    if entries != [] {
      var init := entries[..|entries| - 1];
      var e := entries[|entries| - 1];
      SmartMappingKeys(init, template);
      var d := SmartMapping(init, template);
      if IsSmartVideo(e) {
        PutSpec(d, e.name, SmartNewName(e.name, template));
        assert SmartMapping(entries, template) == Put(d, e.name, SmartNewName(e.name, template));
      } else {
        assert SmartMapping(entries, template) == d;
      }
      SelectedSnoc(entries);
    }
  }

  /** Each selected name maps to its generated name plus its lower-cased extension. */
  lemma {:induction false} SmartMappingValues(entries: seq<DirEntry>, template: Template, k: string)
    requires Selected(entries, k)
    ensures Get(SmartMapping(entries, template), k) == Some(SmartNewName(k, template))
    decreases |entries|
  {
    var init := entries[..|entries| - 1];
    var e := entries[|entries| - 1];
    var d := SmartMapping(init, template);
    SelectedSnoc(entries);
    if IsSmartVideo(e) {
      PutSpec(d, e.name, SmartNewName(e.name, template));
      assert SmartMapping(entries, template) == Put(d, e.name, SmartNewName(e.name, template));
      if e.name != k {
        SmartMappingValues(init, template, k);
      }
    } else {
      assert SmartMapping(entries, template) == d;
      SmartMappingValues(init, template, k);
    }
  }

  lemma SelectedSnoc(entries: seq<DirEntry>)
    requires entries != []
    ensures forall k :: Selected(entries, k) <==>
      Selected(entries[..|entries| - 1], k) || (IsSmartVideo(entries[|entries| - 1]) && entries[|entries| - 1].name == k)
  {
    forall k ensures Selected(entries, k) <==>
      Selected(entries[..|entries| - 1], k) || (IsSmartVideo(entries[|entries| - 1]) && entries[|entries| - 1].name == k)
    {
      ListedSnoc(entries, IsSmartVideo, k);
    }
  }

  class AdvancedEpisodeRenamer {
    /** The token login stores; None until a login succeeds. */
    var token: Option<string>
    /** Every batch-rename request sent so far. */
    ghost var sent: seq<RenameRequest>

    constructor ()
      ensures token == None && sent == []
    {
      token := None;
      sent := [];
    }

    /** `self.token` is truthy: present and not empty. */
    predicate HasToken()
      reads this
    {
      token.Some? && token.value != ""
    }

    /** login(): `reply` is the token the service hands out, or None when it refuses or fails. */
    method Login(reply: Option<string>) returns (ok: bool)
      modifies this`token
      ensures ok == reply.Some?
      ensures token == if reply.Some? then reply else old(token)
    {
      if reply.Some? {
        token := reply;
        return true;
      }
      return false;
    }

    /** get_directory_contents(): nothing without a token, else what the service lists (`served`). */
    method GetDirectoryContents(served: Option<seq<DirEntry>>) returns (contents: Option<seq<DirEntry>>)
      ensures contents == if HasToken() then served else None
    {
      if !HasToken() {
        return None;
      }
      return served;
    }

    /**
     * batch_rename(): refused without a token; otherwise one request with
     * one pair per mapping item is sent, and the service's answer returned.
     */
    method BatchRename(srcDir: string, mapping: Dict, reply: bool) returns (ok: bool)
      modifies this`sent
      ensures ok == (HasToken() && reply)
      ensures sent == if HasToken() then old(sent) + [RenameRequest(srcDir, RenameObjects(mapping))] else old(sent)
    {
      if !HasToken() {
        return false;
      }
      var renameObjects := BuildRenameObjects(mapping);
      sent := sent + [RenameRequest(srcDir, renameObjects)];
      return reply;
    }

    /** create_smart_rename_mapping() over the listing the service returns. */
    method CreateSmartRenameMapping(served: Option<seq<DirEntry>>, template: Template) returns (mapping: Dict)
      ensures mapping == if HasToken() && served.Some? then SmartMapping(served.value, template) else []
    {
      var contents := GetDirectoryContents(served);
      if contents.None? || contents.value == [] {
        return [];
      }
      var items := contents.value;
      mapping := [];
      for i := 0 to |items|
        invariant mapping == SmartMapping(items[..i], template)
      {
        assert items[..i + 1][..i] == items[..i];
        var item := items[i];
        if item.isDir {
          continue;
        }
        var filename := item.name;
        var ext := LowerStr(SplitExt(filename).1);
        if ext in VideoExtensions {
          var episodeInfo := AsDict(ExtractEpisodeInfo(filename))["extension" := ext];
          var newName := GenerateStandardName(episodeInfo, template) + ext;
          mapping := Put(mapping, filename, newName);
        }
      }
      assert items[..|items|] == items;
    }

    /** rename_episodes_by_pattern(). */
    method RenameEpisodesByPattern(directoryPath: string, served: Option<seq<DirEntry>>, template: Template,
                                   dryRun: bool, reply: bool) returns (ok: bool)
      modifies this`sent
      ensures var m := if HasToken() && served.Some? then SmartMapping(served.value, template) else [];
        && ok == (m != [] && (dryRun || reply))
        && sent == if m != [] && !dryRun then old(sent) + [RenameRequest(directoryPath, RenameObjects(m))]
                   else old(sent)
    {
      var renameMapping := CreateSmartRenameMapping(served, template);
      if renameMapping == [] {
        return false;
      }
      if dryRun {
        return true;
      }
      ok := BatchRename(directoryPath, renameMapping, reply);
    }

    /** rename_episodes_by_custom_list(). */
    method RenameEpisodesByCustomList(directoryPath: string, customMapping: Dict, dryRun: bool, reply: bool)
      returns (ok: bool)
      modifies this`sent
      ensures ok == (customMapping != [] && (dryRun || (HasToken() && reply)))
      ensures sent == if customMapping != [] && !dryRun && HasToken()
                      then old(sent) + [RenameRequest(directoryPath, RenameObjects(customMapping))]
                      else old(sent)
    {
      if customMapping == [] {
        return false;
      }
      if dryRun {
        return true;
      }
      ok := BatchRename(directoryPath, customMapping, reply);
    }
  }
}
