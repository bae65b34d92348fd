/**
 * The command line (src/cli.rs): the `--var KEY=VALUE` entries read into a
 * map, and the template and architecture names found in a directory
 * listing.  The file system is an input: a listing is the entries a
 * directory read gives, or nothing when the directory does not exist or
 * cannot be read.
 */
module Cli {
  import opened Wrappers
  import opened Strings
  import opened FilterMap
  import opened Ordering

  /** The parsed command line; paths are their text. */
  datatype Args = Args(
    name: Option<string>,
    templateType: Option<string>,
    architecture: Option<string>,
    noFolder: bool,
    outputDir: Option<string>,
    config: Option<string>,
    list: bool,
    vars: seq<string>,
    describe: Option<string>)

  // ---------------------------------------------------------------- parse_vars

  /** What one `--var` entry gives: the trimmed text before and after the first '=', or nothing without '='. */
  function VarEntry(raw: string): Option<(string, string)>
  {
    match SplitOnce(raw, '=')
    case None => None
    case Some(kv) => Some((Trim(kv.0), Trim(kv.1)))
  }

  /** The map the entries give, each inserted in turn over the earlier ones. */
  function VarsMap(entries: seq<string>): map<string, string>
  {
    InsertAll(VarEntry, entries)
  }

  /** The pairs `f` gives for the entries, inserted in order into an empty map. */
  function InsertAll(f: string -> Option<(string, string)>, entries: seq<string>): map<string, string>
    decreases |entries|
  {
    if entries == [] then map[]
    else
      var m := InsertAll(f, entries[..|entries| - 1]);
      match f(entries[|entries| - 1])
      case None => m
      case Some(kv) => m[kv.0 := kv.1]
  }

  /** `parse_vars`: the loop inserting each well-formed entry; entries without '=' are only warned about. */
  method ParseVars(args: Args) returns (vars: map<string, string>)
    ensures vars == VarsMap(args.vars)
  {
    vars := map[];
    for i := 0 to |args.vars|
      invariant vars == VarsMap(args.vars[..i])
    {
      InsertStep(VarEntry, args.vars, i);
      var entry := VarEntry(args.vars[i]);
      if entry.Some? {
        vars := vars[entry.value.0 := entry.value.1];
      }
    }
    assert args.vars[..|args.vars|] == args.vars;
  }

  lemma InsertStep(f: string -> Option<(string, string)>, entries: seq<string>, i: nat)
    requires i < |entries|
    ensures InsertAll(f, entries[..i + 1])
         == if f(entries[i]).None? then InsertAll(f, entries[..i])
            else InsertAll(f, entries[..i])[f(entries[i]).value.0 := f(entries[i]).value.1]
  {
    assert entries[..i + 1][..i] == entries[..i];
  }

  /** The entry gives a value for `key`. */
  predicate Keyed(f: string -> Option<(string, string)>, raw: string, key: string)
  {
    f(raw).Some? && f(raw).value.0 == key
  }

  /** The entry is split at its first '=': the value may hold further '=' characters. */
  lemma SplitAtFirst(key: string, value: string)
    requires '=' !in key
    ensures VarEntry(key + "=" + value) == Some((Trim(key), Trim(value)))
  {
    var raw := key + "=" + value;
    assert raw[..|key|] == key && raw[|key|] == '=';
    FindFirst(raw, '=', |key|);
    assert raw[|key| + 1..] == value;
  }

  /** An entry without '=' is skipped: the map is as if it were not there. */
  lemma BadEntrySkipped(entries: seq<string>, raw: string)
    requires '=' !in raw
    ensures VarsMap(entries + [raw]) == VarsMap(entries)
  {
    assert VarEntry(raw) == None;
    assert (entries + [raw])[..|entries|] == entries;
  }

  /** The keys of the map are the keys of the well-formed entries. */
  lemma VarsKeys(entries: seq<string>, key: string)
    ensures key in VarsMap(entries) <==> exists i :: 0 <= i < |entries| && Keyed(VarEntry, entries[i], key)
  {
    InsertedKeys(VarEntry, entries, key);
  }

  lemma {:induction false} InsertedKeys(f: string -> Option<(string, string)>, entries: seq<string>, key: string)
    ensures key in InsertAll(f, entries) <==> exists i :: 0 <= i < |entries| && Keyed(f, entries[i], key)
    decreases |entries|
  {
    if entries != [] {
      var init := entries[..|entries| - 1];
      InsertedKeys(f, init, key);
      if exists i :: 0 <= i < |entries| && Keyed(f, entries[i], key) {
        var i :| 0 <= i < |entries| && Keyed(f, entries[i], key);
        if i < |entries| - 1 {
          assert Keyed(f, init[i], key);
        }
      }
      if exists i :: 0 <= i < |init| && Keyed(f, init[i], key) {
        var i :| 0 <= i < |init| && Keyed(f, init[i], key);
        assert Keyed(f, entries[i], key);
      }
    }
  }

  /** The last entry for a key wins: its value is the one in the map, whatever came before. */
  lemma LastWins(entries: seq<string>, i: nat, key: string, value: string)
    requires i < |entries| && VarEntry(entries[i]) == Some((key, value))
    requires forall j :: i < j < |entries| ==> !Keyed(VarEntry, entries[j], key)
    ensures key in VarsMap(entries) && VarsMap(entries)[key] == value
  {
    LastInserted(VarEntry, entries, i, key, value);
  }

  lemma {:induction false} LastInserted(f: string -> Option<(string, string)>, entries: seq<string>, i: nat,
                                        key: string, value: string)
    requires i < |entries| && f(entries[i]) == Some((key, value))
    requires forall j :: i < j < |entries| ==> !Keyed(f, entries[j], key)
    ensures key in InsertAll(f, entries) && InsertAll(f, entries)[key] == value
    decreases |entries|
  {
    if i < |entries| - 1 {
      var init := entries[..|entries| - 1];
      assert init[i] == entries[i];
      LastInserted(f, init, i, key, value);
      assert !Keyed(f, entries[|entries| - 1], key);
    }
  }

  // ---------------------------------------------------------------- discovery

  datatype FileType = Directory | File | OtherType

  /** A directory entry: its name (none when not valid UTF-8) and its type (none when it cannot be read). */
  datatype Entry = Entry(name: Option<string>, fileType: Option<FileType>)

  /** What `read_dir` gives: none when the directory is missing or unreadable; an entry that fails to read is none. */
  type Listing = Option<seq<Option<Entry>>>

  function Present<T>(o: Option<T>): Option<T>
  {
    o
  }

  /** The entries that could be read, in listing order. */
  function Entries(listing: Listing): seq<Entry>
  {
    if listing.None? then [] else Collect(Present, listing.value)
  }

  /** `discover_items`: the names the filter keeps, sorted. */
  function DiscoverItems(listing: Listing, filter: Entry -> Option<string>): seq<string>
  {
    SortBy(Collect(filter, Entries(listing)), Id)
  }

  /** The template filter: a directory whose name does not start with '.' and is not "architectures". */
  function TemplateEntry(e: Entry): Option<string>
  {
    if e.fileType == Some(Directory) && e.name.Some? && !StartsWith(e.name.value, ".")
       && e.name.value != "architectures"
    then Some(e.name.value)
    else None
  }

  /** `discover_templates`: the template directories and "feature", sorted. */
  function DiscoverTemplates(listing: Listing): (templates: seq<string>)
    ensures Sorted(templates, Id) && "feature" in templates
  {
    SortStrings(DiscoverItems(listing, TemplateEntry) + ["feature"]);
    SortKeeps(DiscoverItems(listing, TemplateEntry) + ["feature"], "feature");
    SortBy(DiscoverItems(listing, TemplateEntry) + ["feature"], Id)
  }

  /** The architecture filter: a `.json` file whose name does not start with '.', without the extension, unless that is "default". */
  function ArchitectureEntry(e: Entry): Option<string>
  {
    if e.fileType == Some(File) && e.name.Some? && EndsWith(e.name.value, ".json")
       && !StartsWith(e.name.value, ".")
    then
      var arch := e.name.value[..|e.name.value| - 5];
      if arch != "default" then Some(arch) else None
    else None
  }

  /** `discover_architectures`: the architecture names, sorted. */
  function DiscoverArchitectures(listing: Listing): (architectures: seq<string>)
    ensures Sorted(architectures, Id)
  {
    ItemsSorted(listing, ArchitectureEntry);
    DiscoverItems(listing, ArchitectureEntry)
  }

  /** The entries of a listing are the entries it holds that could be read. */
  lemma EntriesListed(listing: Listing, e: Entry)
    ensures e in Entries(listing) <==> listing.Some? && Some(e) in listing.value
  {
    if listing.Some? {
      CollectMember(Present, listing.value, e);
      if Some(e) in listing.value {
        var i :| 0 <= i < |listing.value| && listing.value[i] == Some(e);
        assert Present(listing.value[i]) == Some(e);
      }
    }
  }

  /** The names a filter keeps, counted with repetitions, and sorted. */
  lemma ItemsSorted(listing: Listing, filter: Entry -> Option<string>)
    ensures Sorted(DiscoverItems(listing, filter), Id)
    ensures multiset(DiscoverItems(listing, filter)) == multiset(Collect(filter, Entries(listing)))
  {
    SortStrings(Collect(filter, Entries(listing)));
  }

  /** A name is kept exactly when a readable entry gives it. */
  lemma ItemMember(listing: Listing, filter: Entry -> Option<string>, x: string)
    ensures x in DiscoverItems(listing, filter) <==> exists e :: e in Entries(listing) && filter(e) == Some(x)
  {
    var xs := Entries(listing);
    SortKeeps(Collect(filter, xs), x);
    CollectMember(filter, xs, x);
    if exists e :: e in xs && filter(e) == Some(x) {
      var e :| e in xs && filter(e) == Some(x);
      var i :| 0 <= i < |xs| && xs[i] == e;
    }
  }

  /** The templates are sorted, and are the template directories plus "feature", with repetitions. */
  lemma TemplatesSorted(listing: Listing)
    ensures Sorted(DiscoverTemplates(listing), Id)
    ensures multiset(DiscoverTemplates(listing))
         == multiset(Collect(TemplateEntry, Entries(listing))) + multiset{"feature"}
  {
    ItemsSorted(listing, TemplateEntry);
    SortStrings(DiscoverItems(listing, TemplateEntry) + ["feature"]);
  }

  /** A name is listed as a template exactly when it is "feature" or the name of a listed directory not starting with '.' and other than "architectures". */
  lemma TemplateMember(listing: Listing, x: string)
    ensures x in DiscoverTemplates(listing)
        <==> x == "feature"
             || (!StartsWith(x, ".") && x != "architectures"
                 && Entry(Some(x), Some(Directory)) in Entries(listing))
  {
    var items := DiscoverItems(listing, TemplateEntry);
    SortKeeps(items + ["feature"], x);
    assert x in items + ["feature"] <==> x in items || x == "feature";
    ItemMember(listing, TemplateEntry, x);
    if exists e :: e in Entries(listing) && TemplateEntry(e) == Some(x) {
      var e :| e in Entries(listing) && TemplateEntry(e) == Some(x);
      assert e == Entry(Some(x), Some(Directory));
    }
    if !StartsWith(x, ".") && x != "architectures" && Entry(Some(x), Some(Directory)) in Entries(listing) {
      assert TemplateEntry(Entry(Some(x), Some(Directory))) == Some(x);
    }
  }

  /** A missing or unreadable templates directory still offers "feature". */
  lemma NoTemplatesDirectory()
    ensures DiscoverTemplates(None) == ["feature"]
  {
    assert Entries(None) == [];
    assert DiscoverItems(None, TemplateEntry) == [];
  }

  /** A templates directory named "feature" makes "feature" appear twice. */
  lemma FeatureDirectoryTwice(listing: Listing)
    requires Entry(Some("feature"), Some(Directory)) in Entries(listing)
    ensures multiset(DiscoverTemplates(listing))["feature"] >= 2
  {
    TemplatesSorted(listing);
    FeatureDirectoryKept();
    var xs := Entries(listing);
    var i :| 0 <= i < |xs| && xs[i] == Entry(Some("feature"), Some(Directory));
    CollectHas(TemplateEntry, xs, i);
    assert "feature" in multiset(Collect(TemplateEntry, xs));
  }

  lemma FeatureDirectoryKept()
    ensures TemplateEntry(Entry(Some("feature"), Some(Directory))) == Some("feature")
  {
    assert !StartsWith("feature", ".") by {
      assert "feature"[..1] == "f";
    }
  }

  /** The architectures are sorted and are the names the architecture filter keeps, with repetitions. */
  lemma ArchitecturesSorted(listing: Listing)
    ensures Sorted(DiscoverArchitectures(listing), Id)
    ensures multiset(DiscoverArchitectures(listing)) == multiset(Collect(ArchitectureEntry, Entries(listing)))
  {
    ItemsSorted(listing, ArchitectureEntry);
  }

  /** A name is an architecture exactly when `name.json` is a listed file not starting with '.' and the name is not "default". */
  lemma ArchitectureMember(listing: Listing, x: string)
    ensures x in DiscoverArchitectures(listing)
        <==> !StartsWith(x + ".json", ".") && x != "default"
             && Entry(Some(x + ".json"), Some(File)) in Entries(listing)
  {
    ItemMember(listing, ArchitectureEntry, x);
    var file := x + ".json";
    assert file[..|file| - 5] == x;
    assert EndsWith(file, ".json");
    if exists e :: e in Entries(listing) && ArchitectureEntry(e) == Some(x) {
      var e :| e in Entries(listing) && ArchitectureEntry(e) == Some(x);
      var n := e.name.value;
      assert n == n[..|n| - 5] + n[|n| - 5..];
      assert e == Entry(Some(file), Some(File));
    }
    if !StartsWith(file, ".") && x != "default" && Entry(Some(file), Some(File)) in Entries(listing) {
      assert ArchitectureEntry(Entry(Some(file), Some(File))) == Some(x);
    }
  }

  /** "default" is never offered as an architecture. */
  lemma NoDefaultArchitecture(listing: Listing)
    ensures "default" !in DiscoverArchitectures(listing)
  {
    ArchitectureMember(listing, "default");
  }

  /** A missing or unreadable architectures directory offers nothing. */
  lemma NoArchitecturesDirectory()
    ensures DiscoverArchitectures(None) == []
  {
    assert Entries(None) == [];
  }
}
