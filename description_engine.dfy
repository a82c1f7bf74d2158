/**
 * The description engine (`ImageDescriptionWriter`, the same code in
 * exif-writer.py and writer.py). For a `.jpg` file it derives the text
 * `prefix + " " + <path below the root, '/' turned into ' '>`, refuses to
 * overwrite a description the user wrote, writes the Description field only
 * when it differs, removes marked descriptions in clean mode, and tallies the
 * outcome codes of a batch.
 *
 * The metadata tool is an abstract store: `store` maps a file to what the tool
 * reports for its Description field (a file without one is absent), and
 * `unwritable` holds the files on which the tool's write does not succeed.
 */
module DescriptionEngine {
  import opened Outcomes
  import opened PyStr
  import opened PyPath

  const ALLOWED_EXT: seq<string> := [".jpg"]

  /** What the metadata tool reports for a Description field that is present. */
  datatype Field =
    | Text(s: string)   // a JSON string
    | Number(n: int)    // a JSON number: the tool reports numeric-looking text as a number
    | Garbled           // reading it raises (output that does not decode, an empty result list)

  function Lookup(store: map<string, Field>, path: string): Option<Field> {
    if path in store then Some(store[path]) else None
  }

  /** Python truthiness of what `get_description` returns: `None`, `''` and `0` are false. */
  predicate Falsy(d: Option<Field>) {
    d == None || d == Some(Text("")) || d == Some(Number(0))
  }

  /** `existing_prefix or prefix`: the marker that identifies descriptions this tool wrote. */
  function Marker(existingPrefix: Option<string>, prefix: string): (m: string)
    ensures existingPrefix == None || existingPrefix == Some("") ==> m == prefix
    ensures existingPrefix.Some? && existingPrefix.value != "" ==> m == existingPrefix.value
  {
    if existingPrefix.Some? && existingPrefix.value != "" then existingPrefix.value else prefix
  }

  /** The configuration a writer is built with. */
  datatype Settings = Settings(prefix: string, existingPrefix: string, force: bool, rootDirLength: nat)

  /** What one per-file call decides: its return code and the value it passes to `set_description`, if any. */
  datatype Step = Step(code: Option<int>, write: Option<string>)

  /** The description derived for `path`: the prefix, a space, then the path without its first
      `rootDirLength` characters, split at '/' and joined with spaces. */
  function NewDescription(prefix: string, rootDirLength: nat, path: string): string {
    prefix + " " + Join(" ", Split(Drop(path, rootDirLength), '/'))
  }

  /** The derived description is the prefix, a space, and the trimmed path with each '/' replaced by a space. */
  lemma NewDescriptionShape(prefix: string, rootDirLength: nat, path: string)
    ensures |NewDescription(prefix, rootDirLength, path)| == |prefix| + 1 + |Drop(path, rootDirLength)|
    ensures NewDescription(prefix, rootDirLength, path)
            == prefix + " " + Replace(Drop(path, rootDirLength), '/', ' ')
    ensures StartsWith(NewDescription(prefix, rootDirLength, path), prefix + " ")
  {
    JoinSplitIsReplace(Drop(path, rootDirLength), '/', ' ');
    var d := NewDescription(prefix, rootDirLength, path);
    assert d[..|prefix + " "|] == prefix + " ";
  }

  /** A marker occurring in the prefix occurs in every description derived from that prefix. */
  lemma MarkerInDerived(prefix: string, marker: string, rootDirLength: nat, path: string)
    requires Contains(prefix, marker)
    ensures Contains(NewDescription(prefix, rootDirLength, path), marker)
  {
    ContainsExtend(prefix, " " + Join(" ", Split(Drop(path, rootDirLength), '/')), marker);
    assert prefix + (" " + Join(" ", Split(Drop(path, rootDirLength), '/')))
           == NewDescription(prefix, rootDirLength, path);
  }

  /** The worked example: for root `/lib` and file `/lib/Trips/Paris 2023/IMG_001.jpg` (written as the
      concatenation of its parts) the description is the prefix, two spaces (the one after the prefix and
      the one that replaced the leading '/'), then the segments separated by single spaces. */
  lemma NewDescriptionExample(prefix: string, r: string, t: string, p: string, n: string)
    requires r == "/lib" && t == "Trips" && p == "Paris 2023" && n == "IMG_001.jpg"
    ensures NewDescription(prefix, |r|, r + "/" + t + "/" + p + "/" + n)
            == prefix + " " + (" " + t + " " + p + " " + n)
  {
    var rest := "/" + t + "/" + p + "/" + n;
    assert Drop(r + "/" + t + "/" + p + "/" + n, |r|) == rest by {
      assert r + "/" + t + "/" + p + "/" + n == r + rest;
    }
    NewDescriptionShape(prefix, |r|, r + "/" + t + "/" + p + "/" + n);
    SegmentsWithoutSlash(t, p, n);
    ReplaceAppend("/" + t + "/" + p + "/", n, '/', ' ');
    ReplaceAppend("/" + t + "/" + p, "/", '/', ' ');
    ReplaceAppend("/" + t + "/", p, '/', ' ');
    ReplaceAppend("/" + t, "/", '/', ' ');
    ReplaceAppend("/", t, '/', ' ');
    assert Replace("/", '/', ' ') == " ";
    assert Replace(rest, '/', ' ') == " " + t + " " + p + " " + n;
  }

  lemma SegmentsWithoutSlash(t: string, p: string, n: string)
    requires t == "Trips" && p == "Paris 2023" && n == "IMG_001.jpg"
    ensures Replace(t, '/', ' ') == t && Replace(p, '/', ' ') == p && Replace(n, '/', ' ') == n
  {
    ReplaceAbsent(t, '/', ' ');
    ReplaceAbsent(p, '/', ' ');
    ReplaceAbsent(n, '/', ' ');
  }

  /** The overwrite guard `not desc or existing_prefix in desc or force`, on a description that reads as
      a string or as nothing (a number fails the `in` test before `force` is looked at). */
  predicate OverwritePermitted(s: Settings, cur: Option<Field>) {
    Falsy(cur) || (cur.Some? && cur.value.Text? && (Contains(cur.value.s, s.existingPrefix) || s.force))
  }

  /** `write_directory_structure` on one file whose current Description is `cur`. */
  function WriteStep(s: Settings, path: string, cur: Option<Field>): (st: Step)
    ensures IsCode(st.code)
    // only .jpg files are looked at; any other file falls through to `None`
    ensures LowerExt(path) != ".jpg" ==> st == Step(None, None)
    // a raising read, or a non-zero number meeting the `in` test, fails the file and writes nothing
    ensures st.code == Some(FAILED) <==>
              LowerExt(path) == ".jpg" && (cur == Some(Garbled) || (cur.Some? && cur.value.Number? && cur.value.n != 0))
    ensures st.code == Some(FAILED) ==> st.write == None
    // the guard: a foreign description is never overwritten unless forced
    ensures (LowerExt(path) == ".jpg" && cur.Some? && cur.value.Text? && cur.value.s != ""
             && !Contains(cur.value.s, s.existingPrefix) && !s.force) ==> st == Step(Some(SKIPPED), None)
    // the file is updated exactly when it is a .jpg, the guard lets the write through, and the text differs
    ensures st.code == Some(UPDATED) <==>
              LowerExt(path) == ".jpg" && OverwritePermitted(s, cur)
              && cur != Some(Text(NewDescription(s.prefix, s.rootDirLength, path)))
    // a write happens exactly when the file is updated, and it writes the derived description
    ensures st.write.Some? <==> st.code == Some(UPDATED)
    ensures st.write.Some? ==> st.write.value == NewDescription(s.prefix, s.rootDirLength, path)
    // an already-written description is left alone and the call returns no code
    ensures (LowerExt(path) == ".jpg" && cur == Some(Text(NewDescription(s.prefix, s.rootDirLength, path)))
             && (s.force || Contains(cur.value.s, s.existingPrefix))) ==> st == Step(None, None)
    // a missing or empty description is always replaced by the derived one
    ensures LowerExt(path) == ".jpg" && Falsy(cur) ==>
              st == Step(Some(UPDATED), Some(NewDescription(s.prefix, s.rootDirLength, path)))
    // a marked or forced description that differs from the derived one is rewritten
    ensures (LowerExt(path) == ".jpg" && cur.Some? && cur.value.Text? && cur.value.s != ""
             && (Contains(cur.value.s, s.existingPrefix) || s.force)
             && cur.value.s != NewDescription(s.prefix, s.rootDirLength, path)) ==>
              st == Step(Some(UPDATED), Some(NewDescription(s.prefix, s.rootDirLength, path)))
  {
    if LowerExt(path) != ".jpg" then Step(None, None)
    else if cur == Some(Garbled) then Step(Some(FAILED), None)
    else if !Falsy(cur) && cur.value.Number? then Step(Some(FAILED), None)
    else if Falsy(cur) || Contains(cur.value.s, s.existingPrefix) || s.force then
      var newDesc := NewDescription(s.prefix, s.rootDirLength, path);
      if cur != Some(Text(newDesc)) then Step(Some(UPDATED), Some(newDesc)) else Step(None, None)
    else Step(Some(SKIPPED), None)
  }

  /** `clean_directory_metadata` on one file whose current Description is `cur`. */
  function CleanStep(existingPrefix: string, path: string, cur: Option<Field>): (st: Step)
    ensures IsCode(st.code) && st.code != None
    ensures LowerExt(path) != ".jpg" ==> st == Step(Some(SKIPPED), None)
    // only a description carrying the marker is removed, by writing the empty string
    ensures st.code == Some(UPDATED) <==>
              LowerExt(path) == ".jpg" && cur.Some? && cur.value.Text? && cur.value.s != ""
              && Contains(cur.value.s, existingPrefix)
    ensures st.write.Some? <==> st.code == Some(UPDATED)
    ensures st.write.Some? ==> st.write.value == ""
    ensures st.code == Some(FAILED) <==>
              LowerExt(path) == ".jpg" && (cur == Some(Garbled) || (cur.Some? && cur.value.Number? && cur.value.n != 0))
  {
    if LowerExt(path) != ".jpg" then Step(Some(SKIPPED), None)
    else if cur == Some(Garbled) then Step(Some(FAILED), None)
    else if Falsy(cur) then Step(Some(SKIPPED), None)
    else if cur.value.Number? then Step(Some(FAILED), None)
    else if Contains(cur.value.s, existingPrefix) then Step(Some(UPDATED), Some(""))
    else Step(Some(SKIPPED), None)
  }

  /** The store after a step: nothing is written in dry-run mode, and a write the tool refuses changes nothing. */
  function Commit(store: map<string, Field>, unwritable: set<string>, dryRun: bool,
                  path: string, write: Option<string>): (r: map<string, Field>)
    ensures forall f :: f != path ==> Lookup(r, f) == Lookup(store, f)
    ensures Lookup(r, path) ==
              if !dryRun && write.Some? && path !in unwritable then Some(Text(write.value)) else Lookup(store, path)
  {
    if !dryRun && write.Some? && path !in unwritable then store[path := Text(write.value)] else store
  }

  function StepFor(mode: Mode, s: Settings, path: string, cur: Option<Field>): Step {
    match mode
    case Write => WriteStep(s, path, cur)
    case Clean => CleanStep(s.existingPrefix, path, cur)
  }

  /** `[f for f in files if os.path.splitext(f)[1].lower() in ALLOWED_EXT]` */
  function AllowedFiles(files: seq<string>): (r: seq<string>)
    ensures |r| <= |files|
    ensures forall f :: f in r <==> f in files && LowerExt(f) in ALLOWED_EXT
  {
    if files == [] then []
    else (if LowerExt(files[0]) in ALLOWED_EXT then [files[0]] else []) + AllowedFiles(files[1..])
  }

  /** The filter keeps the listing's order and repeats: it works piecewise. */
  lemma {:induction false} AllowedFilesAppend(a: seq<string>, b: seq<string>)
    ensures AllowedFiles(a + b) == AllowedFiles(a) + AllowedFiles(b)
    decreases |a|
  {
    if a == [] {
      assert a + b == b;
    } else {
      assert (a + b)[0] == a[0];
      assert (a + b)[1..] == a[1..] + b;
      AllowedFilesAppend(a[1..], b);
    }
  }

  /** The codes and the final store of a batch over `files`, processed one after the other in list order. */
  datatype Pass = Pass(codes: seq<Option<int>>, store: map<string, Field>)

  function Run(s: Settings, mode: Mode, dryRun: bool, unwritable: set<string>,
               store: map<string, Field>, files: seq<string>): (r: Pass)
    ensures |r.codes| == |files|
    decreases |files|
  {
    if files == [] then Pass([], store)
    else
      var before := Run(s, mode, dryRun, unwritable, store, files[..|files| - 1]);
      var f := files[|files| - 1];
      var st := StepFor(mode, s, f, Lookup(before.store, f));
      Pass(before.codes + [st.code], Commit(before.store, unwritable, dryRun, f, st.write))
  }

  /** One more file extends a batch by that file's step. */
  lemma RunExtend(s: Settings, mode: Mode, dryRun: bool, unwritable: set<string>,
                  store: map<string, Field>, files: seq<string>, i: nat)
    requires i < |files|
    ensures var before := Run(s, mode, dryRun, unwritable, store, files[..i]);
            var st := StepFor(mode, s, files[i], Lookup(before.store, files[i]));
            && Run(s, mode, dryRun, unwritable, store, files[..i + 1]).codes == before.codes + [st.code]
            && Run(s, mode, dryRun, unwritable, store, files[..i + 1]).store
               == Commit(before.store, unwritable, dryRun, files[i], st.write)
  {
    assert files[..i + 1][..i] == files[..i];
  }

  /** Every result of a batch is one of the three codes or `None`. */
  lemma {:induction false} RunCodes(s: Settings, mode: Mode, dryRun: bool, unwritable: set<string>,
                                    store: map<string, Field>, files: seq<string>)
    ensures forall i :: 0 <= i < |files| ==> IsCode(Run(s, mode, dryRun, unwritable, store, files).codes[i])
    decreases |files|
  {
    if files != [] {
      var init := files[..|files| - 1];
      var f := files[|files| - 1];
      RunCodes(s, mode, dryRun, unwritable, store, init);
      var before := Run(s, mode, dryRun, unwritable, store, init);
      var codes := Run(s, mode, dryRun, unwritable, store, files).codes;
      var last := StepFor(mode, s, f, Lookup(before.store, f)).code;
      assert codes == before.codes + [last];
      assert IsCode(last);
      forall i | 0 <= i < |codes| ensures IsCode(codes[i]) {
        if i < |before.codes| { assert codes[i] == before.codes[i]; }
      }
    }
  }

  /** A dry run leaves every description as it was. */
  lemma {:induction false} DryRunKeepsStore(s: Settings, mode: Mode, unwritable: set<string>,
                                            store: map<string, Field>, files: seq<string>)
    ensures Run(s, mode, true, unwritable, store, files).store == store
    decreases |files|
  {
    if files != [] {
      DryRunKeepsStore(s, mode, unwritable, store, files[..|files| - 1]);
    }
  }

  /** A live run changes only the descriptions of the files it processed. */
  lemma {:induction false} RunFrame(s: Settings, mode: Mode, dryRun: bool, unwritable: set<string>,
                                    store: map<string, Field>, files: seq<string>, g: string)
    requires g !in files
    ensures Lookup(Run(s, mode, dryRun, unwritable, store, files).store, g) == Lookup(store, g)
    decreases |files|
  {
    if files != [] {
      assert g !in files[..|files| - 1] by {
        assert forall x :: x in files[..|files| - 1] ==> x in files;
      }
      RunFrame(s, mode, dryRun, unwritable, store, files[..|files| - 1], g);
    }
  }

  /** On a list without repeats (as a directory listing is), a dry run reports exactly the codes a live run reports. */
  lemma {:induction false} DryRunSameCodes(s: Settings, mode: Mode, unwritable: set<string>,
                                           store: map<string, Field>, files: seq<string>)
    requires forall i, j :: 0 <= i < j < |files| ==> files[i] != files[j]
    ensures Run(s, mode, true, unwritable, store, files).codes
            == Run(s, mode, false, unwritable, store, files).codes
    decreases |files|
  {
    if files != [] {
      var init := files[..|files| - 1];
      var f := files[|files| - 1];
      DryRunSameCodes(s, mode, unwritable, store, init);
      DryRunKeepsStore(s, mode, unwritable, store, init);
      assert f !in init by {
        forall i | 0 <= i < |init| ensures init[i] != f {
          assert init[i] == files[i];
        }
      }
      RunFrame(s, mode, false, unwritable, store, init, f);
    }
  }

  /** A batch's three counts never exceed the number of `.jpg` files it processed; `None` results are in no count. */
  lemma BatchCountsBounded(s: Settings, mode: Mode, dryRun: bool, unwritable: set<string>,
                           store: map<string, Field>, files: seq<string>)
    ensures var t := Tally(Run(s, mode, dryRun, unwritable, store, AllowedFiles(files)).codes);
            t.updated + t.skipped + t.failed <= |AllowedFiles(files)|
  {
    RunCodes(s, mode, dryRun, unwritable, store, AllowedFiles(files));
    TallyBounded(Run(s, mode, dryRun, unwritable, store, AllowedFiles(files)).codes);
  }

  /** After a live write, writing the same file again writes nothing, and returns no code whenever the
      written text passes the guard, which it does when the marker occurs in the prefix. */
  lemma WriteIsIdempotent(s: Settings, unwritable: set<string>, store: map<string, Field>, path: string)
    requires path !in unwritable
    requires WriteStep(s, path, Lookup(store, path)).write.Some?
    ensures var written := Commit(store, unwritable, false, path, WriteStep(s, path, Lookup(store, path)).write);
            var again := WriteStep(s, path, Lookup(written, path));
            && again.write == None
            && again.code == (if s.force || Contains(NewDescription(s.prefix, s.rootDirLength, path), s.existingPrefix)
                              then None else Some(SKIPPED))
            && (Contains(s.prefix, s.existingPrefix) ==> again.code == None)
  {
    NewDescriptionShape(s.prefix, s.rootDirLength, path);
    if Contains(s.prefix, s.existingPrefix) {
      MarkerInDerived(s.prefix, s.existingPrefix, s.rootDirLength, path);
    }
  }

  /** Clean undoes write: when the marker occurs in the prefix, a live clean after a live write removes the
      description (code 0, the field becomes ''), and a second clean skips the file. */
  lemma CleanUndoesWrite(s: Settings, unwritable: set<string>, store: map<string, Field>, path: string)
    requires path !in unwritable
    requires Contains(s.prefix, s.existingPrefix)
    requires WriteStep(s, path, Lookup(store, path)).write.Some?
    ensures var written := Commit(store, unwritable, false, path, WriteStep(s, path, Lookup(store, path)).write);
            var clean := CleanStep(s.existingPrefix, path, Lookup(written, path));
            var cleaned := Commit(written, unwritable, false, path, clean.write);
            && clean == Step(Some(UPDATED), Some(""))
            && Lookup(cleaned, path) == Some(Text(""))
            && CleanStep(s.existingPrefix, path, Lookup(cleaned, path)) == Step(Some(SKIPPED), None)
  {
    NewDescriptionShape(s.prefix, s.rootDirLength, path);
    MarkerInDerived(s.prefix, s.existingPrefix, s.rootDirLength, path);
  }

  /** With no explicit marker the prefix itself is the marker, so everything the writer writes it can clean. */
  lemma DefaultMarkerCleansOwnWrites(prefix: string, rootDirLength: nat, path: string)
    ensures Contains(NewDescription(prefix, rootDirLength, path), Marker(None, prefix))
  {
    StartsWithContains(prefix, prefix);
    MarkerInDerived(prefix, prefix, rootDirLength, path);
  }

  class ImageDescriptionWriter {
    const directory: string
    const prefix: string
    const existingPrefix: string
    const force: bool
    const dryRun: bool
    const rootDirLength: nat

    /** What the metadata tool reports for each file's Description field; files without one are absent. */
    var store: map<string, Field>
    /** Files the metadata tool cannot write to. */
    const unwritable: set<string>

    constructor (directory: string, prefix: string, existingPrefix: Option<string>, force: bool, dryRun: bool,
                 store: map<string, Field>, unwritable: set<string>)
      ensures this.directory == directory && this.prefix == prefix
      ensures this.existingPrefix == Marker(existingPrefix, prefix)
      ensures this.force == force && this.dryRun == dryRun
      ensures this.rootDirLength == |directory|
      ensures this.store == store && this.unwritable == unwritable
    {
      this.directory := directory;
      this.prefix := prefix;
      this.existingPrefix := Marker(existingPrefix, prefix);
      this.force := force;
      this.dryRun := dryRun;
      this.rootDirLength := |directory|;
      this.store := store;
      this.unwritable := unwritable;
    }

    function Config(): Settings {
      Settings(prefix, existingPrefix, force, rootDirLength)
    }

    /** `get_description`: what the tool reports, or `None` for a file without a Description. */
    method GetDescription(path: string) returns (desc: Option<Field>)
      ensures desc == Lookup(store, path)
    {
      desc := if path in store then Some(store[path]) else None;
    }

    /** `set_description`: reports whether the tool succeeded, and only then changes the field. */
    method SetDescription(path: string, value: string) returns (ok: bool)
      modifies this`store
      ensures ok == (path !in unwritable)
      ensures store == Commit(old(store), unwritable, false, path, Some(value))
    {
      ok := path !in unwritable;
      if ok {
        store := store[path := Text(value)];
      }
    }

    /** `remove_description`: writes the empty string. */
    method RemoveDescription(path: string) returns (ok: bool)
      modifies this`store
      ensures ok == (path !in unwritable)
      ensures store == Commit(old(store), unwritable, false, path, Some(""))
    {
      ok := SetDescription(path, "");
    }

    /** `write_directory_structure` */
    method WriteDirectoryStructure(path: string) returns (code: Option<int>)
      modifies this`store
      ensures var st := WriteStep(Config(), path, Lookup(old(store), path));
              code == st.code && store == Commit(old(store), unwritable, dryRun, path, st.write)
    {
      var ext := Lower(SplitExt(path).1);
      code := None;
      if ext == ".jpg" {
        var desc := GetDescription(path);
        if desc == Some(Garbled) {
          // the read raised
          return Some(FAILED);
        }
        if !Falsy(desc) && desc.value.Number? {
          // `existing_prefix in desc` raises TypeError on a number
          return Some(FAILED);
        }
        if Falsy(desc) || Contains(desc.value.s, existingPrefix) || force {
          var trimmedPath := Drop(path, rootDirLength);
          var splitPath := Join(" ", Split(trimmedPath, '/'));
          var newDesc := prefix + " " + splitPath;
          if desc != Some(Text(newDesc)) {
            if !dryRun {
              // the tool's success flag is ignored
              var ok := SetDescription(path, newDesc);
            }
            return Some(UPDATED);
          }
        } else {
          return Some(SKIPPED);
        }
      }
    }

    /** `clean_directory_metadata` */
    method CleanDirectoryMetadata(path: string) returns (code: Option<int>)
      modifies this`store
      ensures var st := CleanStep(existingPrefix, path, Lookup(old(store), path));
              code == st.code && store == Commit(old(store), unwritable, dryRun, path, st.write)
    {
      var ext := Lower(SplitExt(path).1);
      if ext == ".jpg" {
        var desc := GetDescription(path);
        if desc == Some(Garbled) {
          return Some(FAILED);
        }
        if Falsy(desc) {
          return Some(SKIPPED);
        }
        if desc.value.Number? {
          // `existing_prefix in desc` raises TypeError on a number
          return Some(FAILED);
        }
        if Contains(desc.value.s, existingPrefix) {
          if !dryRun {
            var ok := RemoveDescription(path);
          }
          return Some(UPDATED);
        }
        return Some(SKIPPED);
      }
      return Some(SKIPPED);
    }

    /** `func(f)`, where `func` is the bound method `execute_on_files` was given. */
    method Apply(mode: Mode, path: string) returns (code: Option<int>)
      modifies this`store
      ensures var st := StepFor(mode, Config(), path, Lookup(old(store), path));
              code == st.code && store == Commit(old(store), unwritable, dryRun, path, st.write)
    {
      match mode {
        case Write => code := WriteDirectoryStructure(path);
        case Clean => code := CleanDirectoryMetadata(path);
      }
    }

    /** One iteration of the batch: process `todo[i]` after `todo[..i]`, starting from the store `start`. */
    method ProcessNext(mode: Mode, ghost start: map<string, Field>, todo: seq<string>, i: nat,
                       ghost done: seq<Option<int>>) returns (r: Option<int>)
      requires i < |todo|
      requires Pass(done, store) == Run(Config(), mode, dryRun, unwritable, start, todo[..i])
      modifies this`store
      ensures Pass(done + [r], store) == Run(Config(), mode, dryRun, unwritable, start, todo[..i + 1])
    {
      ghost var before := Run(Config(), mode, dryRun, unwritable, start, todo[..i]);
      RunExtend(Config(), mode, dryRun, unwritable, start, todo, i);
      ghost var st := StepFor(mode, Config(), todo[i], Lookup(before.store, todo[i]));
      r := Apply(mode, todo[i]);
      assert r == st.code;
      assert store == Commit(before.store, unwritable, dryRun, todo[i], st.write);
    }

    /** `execute_on_files`: keeps the `.jpg` files of the listing, then runs the operation on each of them
        in list order and counts the codes. */
    method ExecuteOnFiles(mode: Mode, files: seq<string>) returns (summary: Summary)
      modifies this`store
      ensures var pass := Run(Config(), mode, dryRun, unwritable, old(store), AllowedFiles(files));
              summary == Tally(pass.codes) && store == pass.store
    {
      var todo := AllowedFiles(files);
      var results: seq<Option<int>> := [];
      var i := 0;
      while i < |todo|
        invariant 0 <= i <= |todo|
        invariant Pass(results, store) == Run(Config(), mode, dryRun, unwritable, old(store), todo[..i])
      {
        var r := ProcessNext(mode, old(store), todo, i, results);
        results := results + [r];
        i := i + 1;
      }
      assert todo[..i] == todo;
      summary := Tally(results);
    }

    /** `write_metadata` */
    method WriteMetadata(files: seq<string>) returns (summary: Summary)
      modifies this`store
      ensures var pass := Run(Config(), Write, dryRun, unwritable, old(store), AllowedFiles(files));
              summary == Tally(pass.codes) && store == pass.store
    {
      summary := ExecuteOnFiles(Write, files);
    }

    /** `clean_metadata` */
    method CleanMetadata(files: seq<string>) returns (summary: Summary)
      modifies this`store
      ensures var pass := Run(Config(), Clean, dryRun, unwritable, old(store), AllowedFiles(files));
              summary == Tally(pass.codes) && store == pass.store
    {
      summary := ExecuteOnFiles(Clean, files);
    }
  }
}
