/**
 * The filename engine (`ImageRenamer` in renamer.py). It splits a file's path
 * into directory, base name and lower-cased extension, turns each directory
 * segment below the root into a token of `[a-z0-9_-]`, and renames an eligible
 * file to `<dir>/<tokens joined by '_'>_<base><ext>` unless its base name
 * already starts with those tokens.
 *
 * The file system is abstract: `files` is the set of paths that exist and
 * `failing` the paths whose rename the operating system refuses.
 */
module FilenameEngine {
  import opened Outcomes
  import opened PyStr
  import opened PyPath

  /** Camera-style file name patterns; each is a literal followed by `.*`. */
  const REPLACEABLE_PATTERNS: seq<string> := ["IMG_", "DSCN", "839A", "MVI_"]

  /** `any(re.match(r, base) for r in REPLACEABLE_PATTERNS)`: `re.match` anchors at the start and
      `.*` may match nothing, so a pattern matches exactly the names that start with its literal. */
  predicate MatchesPattern(base: string) {
    exists i :: 0 <= i < |REPLACEABLE_PATTERNS| && StartsWith(base, REPLACEABLE_PATTERNS[i])
  }

  // ----- get_path_components -----

  /** `(dir_string, filename_base, ext)` */
  datatype Components = Components(dir: string, base: string, ext: string)

  /** `get_path_components`: `os.path.split`, then `os.path.splitext` of the name, extension lower-cased. */
  function GetPathComponents(filePath: string): (c: Components)
    ensures c.ext == [] || (c.ext[0] == '.' && '.' !in c.ext[1..])
    ensures HasNoUpper(c.ext)
    ensures '/' !in c.base && '/' !in c.ext
    ensures c.dir == [] || AllSlashes(c.dir) || c.dir[|c.dir| - 1] != '/'
  {
    var (dir, filename) := PathSplit(filePath);
    var (base, ext) := SplitExt(filename);
    assert forall i :: 0 <= i < |base| ==> base[i] == filename[i];
    LowerExtShape(ext);
    Components(dir, base, Lower(ext))
  }

  /** For a path `dir + "/" + name` (a directory not ending in '/', a name without '/'), the components
      are that directory, the name's root and its lower-cased extension; directory, '/', root and the
      extension in its original case give back the path. */
  lemma PathComponentsRebuild(dir: string, name: string)
    requires dir != [] && dir[|dir| - 1] != '/'
    requires '/' !in name
    ensures var c := GetPathComponents(dir + "/" + name);
            var e := SplitExt(name).1;
            && c == Components(dir, SplitExt(name).0, Lower(e))
            && dir + "/" + c.base + e == dir + "/" + name
  {
    PathSplitJoin(dir, name);
  }

  // ----- clean_dirname -----

  /** The characters of the class `[a-zA-Z0-9_\- ]`. */
  predicate IsKeptChar(c: char) {
    'a' <= c <= 'z' || 'A' <= c <= 'Z' || '0' <= c <= '9' || c == '_' || c == '-' || c == ' '
  }

  /** The characters a cleaned directory name, and so a token string, consists of. */
  predicate IsTokenChar(c: char) {
    'a' <= c <= 'z' || '0' <= c <= '9' || c == '_' || c == '-'
  }

  predicate IsToken(s: string) {
    forall i :: 0 <= i < |s| ==> IsTokenChar(s[i])
  }

  /** `re.sub(r'[^a-zA-Z0-9_\- ]', '', s)` */
  function StripDisallowed(s: string): (r: string)
    ensures |r| <= |s|
    ensures forall i :: 0 <= i < |r| ==> IsKeptChar(r[i])
  {
    if s == [] then [] else (if IsKeptChar(s[0]) then [s[0]] else []) + StripDisallowed(s[1..])
  }

  /** A string of kept characters passes the filter unchanged. */
  lemma {:induction false} StripDisallowedKeeps(s: string)
    requires forall i :: 0 <= i < |s| ==> IsKeptChar(s[i])
    ensures StripDisallowed(s) == s
  {
    if s != [] {
      StripDisallowedKeeps(s[1..]);
    }
  }

  /** `clean_dirname`: drop every character outside `[a-zA-Z0-9_\- ]`, lower-case, turn spaces into '-'. */
  function CleanDirname(dirname: string): (r: string)
    ensures IsToken(r)
    ensures |r| <= |dirname|
  {
    Replace(Lower(StripDisallowed(dirname)), ' ', '-')
  }

  /** Cleaning a cleaned name changes nothing. */
  lemma CleanDirnameIdempotent(dirname: string)
    ensures CleanDirname(CleanDirname(dirname)) == CleanDirname(dirname)
  {
    var c := CleanDirname(dirname);
    StripDisallowedKeeps(c);
    LowerOfLower(c);
    assert Replace(c, ' ', '-') == c;
  }

  /** Filtering distributes over concatenation. */
  lemma {:induction false} StripDisallowedAppend(a: string, b: string)
    ensures StripDisallowed(a + b) == StripDisallowed(a) + StripDisallowed(b)
    decreases |a|
  {
    if a == [] {
      assert a + b == b;
    } else {
      var ab := a + b;
      assert ab[0] == a[0];
      assert ab[1..] == a[1..] + b;
      StripDisallowedAppend(a[1..], b);
      var h := if IsKeptChar(a[0]) then [a[0]] else [];
      assert StripDisallowed(ab) == h + StripDisallowed(a[1..] + b);
      assert StripDisallowed(a) == h + StripDisallowed(a[1..]);
      assert h + (StripDisallowed(a[1..]) + StripDisallowed(b)) == (h + StripDisallowed(a[1..])) + StripDisallowed(b);
    }
  }

  /** One character passes the filter exactly when it is in the kept class; otherwise it is dropped. */
  lemma StripDisallowedSingle(c: char)
    ensures StripDisallowed([c]) == if IsKeptChar(c) then [c] else []
  {
    assert [c][1..] == [];
  }

  lemma KeptLiteral(a: string)
    requires a == "My Photos" || a == " 2023" || a == "Paris 2023" || a == "Trips"
    ensures StripDisallowed(a) == a
  {
    assert forall i :: 0 <= i < |a| ==> IsKeptChar(a[i]);
    StripDisallowedKeeps(a);
  }

  /** The example "My Photos!! 2023" becoming "my-photos-2023", written as the
      concatenation of its three parts; and the empty name, which stays empty. */
  lemma CleanDirnameExample(a: string, b: string, c: string)
    requires a == "My Photos" && b == "!!" && c == " 2023"
    ensures CleanDirname(a + b + c) == "my-photos-2023"
    ensures CleanDirname("") == ""
  {
    ExampleStripped(a, b, c);
    ExampleLowered(a + c);
  }

  lemma ExampleStripped(a: string, b: string, c: string)
    requires a == "My Photos" && b == "!!" && c == " 2023"
    ensures StripDisallowed(a + b + c) == a + c
  {
    StripDisallowedAppend(a + b, c);
    StripDisallowedAppend(a, b);
    KeptLiteral(a);
    KeptLiteral(c);
    assert StripDisallowed(b) == [];
  }

  lemma ExampleLowered(x: string)
    requires x == "My Photos" + " 2023"
    ensures Replace(Lower(x), ' ', '-') == "my-photos-2023"
  {
    var l := Lower(x);
    assert forall i :: 0 <= i < |l| ==> l[i] == "my photos 2023"[i];
    var r := Replace(l, ' ', '-');
    assert forall i :: 0 <= i < |r| ==> r[i] == "my-photos-2023"[i];
  }

  // ----- the directory tokens -----

  /** `[self.clean_dirname(d) for d in parts]` */
  function CleanAll(parts: seq<string>): (r: seq<string>)
    ensures |r| == |parts|
    ensures forall i :: 0 <= i < |r| ==> r[i] == CleanDirname(parts[i])
  {
    seq(|parts|, i requires 0 <= i < |parts| => CleanDirname(parts[i]))
  }

  /** `[d for d in parts if d]` */
  function DropEmpty(parts: seq<string>): (r: seq<string>)
    ensures |r| <= |parts|
    ensures forall x :: x in r <==> x in parts && x != []
  {
    if parts == [] then []
    else (if parts[0] != [] then [parts[0]] else []) + DropEmpty(parts[1..])
  }

  /** Dropping empties keeps the surviving segments in order and with their repeats: it works piecewise. */
  lemma {:induction false} DropEmptyAppend(a: seq<string>, b: seq<string>)
    ensures DropEmpty(a + b) == DropEmpty(a) + DropEmpty(b)
    decreases |a|
  {
    if a == [] {
      assert a + b == b;
    } else {
      assert (a + b)[0] == a[0];
      assert (a + b)[1..] == a[1..] + b;
      DropEmptyAppend(a[1..], b);
    }
  }

  /** A single segment survives exactly when it is non-empty. */
  lemma DropEmptySingle(x: string)
    ensures DropEmpty([x]) == if x == [] then [] else [x]
  {
    assert [x][1..] == [];
  }

  /** `"_".join(...)` of the non-empty cleaned segments of `dirString` split at '/'. */
  function JoinedTokens(dirString: string): string {
    Join("_", DropEmpty(CleanAll(Split(dirString, '/'))))
  }

  /** The joined tokens consist of token characters only; in particular they hold no '/' and no '.'. */
  lemma JoinedTokensAreTokens(dirString: string)
    ensures IsToken(JoinedTokens(dirString))
  {
    var parts := DropEmpty(CleanAll(Split(dirString, '/')));
    forall k | 0 <= k < |parts| ensures IsToken(parts[k]) {
      assert parts[k] in CleanAll(Split(dirString, '/'));
    }
    JoinKeeps("_", parts, IsTokenChar);
  }

  /** A directory string made of separators only (the empty one included) yields no tokens. */
  lemma {:induction false} TokensOfSlashes(s: string)
    requires AllSlashes(s)
    ensures JoinedTokens(s) == ""
  {
    var segments := Split(s, '/');
    SplitOfSlashes(s);
    var cleaned := CleanAll(segments);
    assert forall i :: 0 <= i < |cleaned| ==> cleaned[i] == [];
    DropEmptyOfEmpties(cleaned);

  }

  lemma {:induction false} DropEmptyOfEmpties(parts: seq<string>)
    requires forall i :: 0 <= i < |parts| ==> parts[i] == []
    ensures DropEmpty(parts) == []
  {
    if parts != [] {
      DropEmptyOfEmpties(parts[1..]);
    }
  }

  lemma {:induction false} SplitOfSlashes(s: string)
    requires AllSlashes(s)
    ensures forall i :: 0 <= i < |Split(s, '/')| ==> Split(s, '/')[i] == []
  {
    if s != [] {
      SplitOfSlashes(s[1..]);
    }
  }

  lemma ExampleSegments(t: string, p: string)
    requires '/' !in t && '/' !in p
    ensures Split("/" + t + "/" + p, '/') == ["", t, p]
  {
    assert "/" + t + "/" + p == [] + ['/'] + (t + ['/'] + p);
    SplitAfterPiece([], t + ['/'] + p, '/');
    SplitAfterPiece(t, p, '/');
    SplitWithoutSeparator(p, '/');
  }

  lemma ExampleCleaned(t: string, p: string)
    requires t == "Trips" && p == "Paris 2023"
    ensures CleanAll(["", t, p]) == ["", "trips", "paris-2023"]
  {
    SegmentCleaned(t, "trips");
    SegmentCleaned(p, "paris-2023");
    var r := CleanAll(["", t, p]);
    assert r[0] == CleanDirname("") == "";
  }

  /** The two segments of the worked example clean to their tokens. */
  lemma SegmentCleaned(d: string, r: string)
    requires (d == "Trips" && r == "trips") || (d == "Paris 2023" && r == "paris-2023")
    ensures CleanDirname(d) == r
  {
    KeptLiteral(d);
    var c := Replace(Lower(d), ' ', '-');
    assert forall i :: 0 <= i < |c| ==> c[i] == r[i];
  }

  lemma ExampleJoined(x: string, y: string)
    requires x != [] && y != []
    ensures Join("_", DropEmpty(["", x, y])) == x + "_" + y
  {
    var c := ["", x, y];
    var c1 := c[1..];
    var c2 := c1[1..];
    assert c1 == [x, y] && c2 == [y] && c2[1..] == [];
    assert DropEmpty(c2) == [y];
    assert DropEmpty(c1) == [x] + DropEmpty(c2);
    assert DropEmpty(c) == DropEmpty(c1);
    assert [x, y][1..] == [y];
  }

  /** The tokens of the worked example: `/Trips/Paris 2023` below the root gives "trips_paris-2023". */
  lemma TokensExample(t: string, p: string)
    requires t == "Trips" && p == "Paris 2023"
    ensures JoinedTokens("/" + t + "/" + p) == "trips_paris-2023"
  {
    ExampleSegments(t, p);
    ExampleCleaned(t, p);
    ExampleJoined("trips", "paris-2023");
    JoinedLiteral("trips", "paris-2023");
  }

  lemma JoinedLiteral(x: string, y: string)
    requires x == "trips" && y == "paris-2023"
    ensures x + "_" + y == "trips_paris-2023"
  {
    var j := x + "_" + y;
    assert forall i :: 0 <= i < |j| ==> j[i] == "trips_paris-2023"[i];
  }

  // ----- write_directory_structure -----

  /** The renamer's configuration. */
  datatype Options = Options(includeRoot: bool, allFiles: bool, rootDirLength: nat)

  /** What `write_directory_structure` decides for one file. */
  datatype Plan = Ineligible | AlreadyRenamed | RenameTo(newPath: string)

  /** The directory string the tokens come from: all of it with `include_root`, otherwise
      the directory without its first `len(directory)` characters. */
  function TokenSource(o: Options, dir: string): string {
    if o.includeRoot then dir else Drop(dir, o.rootDirLength)
  }

  function PlanRename(o: Options, filePath: string): Plan {
    var c := GetPathComponents(filePath);
    if !(o.allFiles || MatchesPattern(c.base)) then Ineligible
    else
      var tokens := JoinedTokens(TokenSource(o, c.dir));
      if StartsWith(c.base, tokens) then AlreadyRenamed
      else RenameTo(c.dir + "/" + (tokens + "_" + c.base + c.ext))
  }

  /** The three decisions: a file is ineligible exactly when `all_files` is off and its base name matches no
      pattern; an eligible file is skipped exactly when its base name already starts with the tokens (so every
      eligible file is skipped when the tokens are empty); otherwise it is renamed to
      `<dir>/<tokens>_<base><ext>`. */
  lemma PlanRenameCases(o: Options, filePath: string)
    ensures var c := GetPathComponents(filePath);
            var tokens := JoinedTokens(TokenSource(o, c.dir));
            var p := PlanRename(o, filePath);
            && (p == Ineligible <==> !o.allFiles && !MatchesPattern(c.base))
            && (p == AlreadyRenamed <==> (o.allFiles || MatchesPattern(c.base)) && StartsWith(c.base, tokens))
            && (p.RenameTo? ==> tokens != [] && p.newPath == c.dir + "/" + (tokens + "_" + c.base + c.ext))
  {
  }

  /** A file directly under the root (no directory below it) is never renamed. */
  lemma RootFilesNeverRenamed(o: Options, filePath: string)
    requires !o.includeRoot && |GetPathComponents(filePath).dir| <= o.rootDirLength
    ensures !PlanRename(o, filePath).RenameTo?
  {
    TokensOfSlashes("");
  }

  /** A file that is to be renamed has a real directory: when the directory is empty or made of
      separators only there are no tokens, and every base name starts with the empty string. */
  lemma RenamedFileHasDirectory(o: Options, filePath: string)
    requires PlanRename(o, filePath).RenameTo?
    ensures var d := GetPathComponents(filePath).dir;
            d != [] && d[|d| - 1] != '/'
  {
    var d := GetPathComponents(filePath).dir;
    if AllSlashes(d) {
      var src := TokenSource(o, d);
      assert AllSlashes(src);
      TokensOfSlashes(src);
      assert false;
    }
  }

  /** The new name `tokens + "_" + base + ext` has no '/', and starts with the dot-free tokens. */
  lemma NewNameShape(tokens: string, base: string, ext: string)
    requires IsToken(tokens)
    requires '/' !in base && '/' !in ext
    ensures '/' !in tokens + "_" + base + ext
    ensures '.' !in tokens
    ensures StartsWith(tokens + "_" + base + ext, tokens)
  {
    var q := tokens + "_" + base;
    var name := q + ext;
    forall i | 0 <= i < |name| ensures name[i] != '/' {
      if i < |tokens| { assert name[i] == tokens[i]; }
      else if i == |tokens| { assert name[i] == '_'; }
      else if i < |q| { assert name[i] == base[i - |tokens| - 1]; }
      else { assert name[i] == ext[i - |q|]; }
    }
    forall i | 0 <= i < |tokens| ensures tokens[i] != '.' {
      assert IsTokenChar(tokens[i]);
    }
    assert name[..|tokens|] == tokens;
  }

  /** With an extension, the new name splits into `tokens + "_" + base` and that extension. */
  lemma NewNameSplit(tokens: string, base: string, ext: string)
    requires IsToken(tokens) && tokens != []
    requires '/' !in base
    requires ext != [] && ext[0] == '.' && '.' !in ext[1..] && '/' !in ext
    ensures SplitExt(tokens + "_" + base + ext) == (tokens + "_" + base, ext)
  {
    var q := tokens + "_" + base;
    NewNameShape(tokens, base, ext);
    assert q[0] == tokens[0] && IsTokenChar(tokens[0]);
    assert '/' !in q by {
      forall i | 0 <= i < |q| ensures q[i] != '/' { assert q[i] == (q + ext)[i]; }
    }
    SplitExtKnown(q, ext);
  }

  /** The renamed path lies in the same directory, its base name starts with the tokens, and when the file
      had an extension the new path splits into the old directory, tokens + "_" + base, and the same
      lower-cased extension. */
  lemma RenameTarget(o: Options, filePath: string)
    requires PlanRename(o, filePath).RenameTo?
    ensures var c := GetPathComponents(filePath);
            var tokens := JoinedTokens(TokenSource(o, c.dir));
            var n := GetPathComponents(PlanRename(o, filePath).newPath);
            && n.dir == c.dir
            && StartsWith(n.base, tokens)
            && (c.ext != [] ==> n == Components(c.dir, tokens + "_" + c.base, c.ext))
  {
    var c := GetPathComponents(filePath);
    var tokens := JoinedTokens(TokenSource(o, c.dir));
    PlanRenameCases(o, filePath);
    JoinedTokensAreTokens(TokenSource(o, c.dir));
    RenamedFileHasDirectory(o, filePath);
    NewPathComponents(c.dir, tokens, c.base, c.ext);
  }

  /** The components of `dir + "/" + tokens + "_" + base + ext`, for the parts a rename puts together. */
  lemma NewPathComponents(dir: string, tokens: string, base: string, ext: string)
    requires dir != [] && dir[|dir| - 1] != '/'
    requires IsToken(tokens) && tokens != []
    requires '/' !in base && '/' !in ext
    requires ext == [] || (ext[0] == '.' && '.' !in ext[1..])
    requires HasNoUpper(ext)
    ensures var n := GetPathComponents(dir + "/" + (tokens + "_" + base + ext));
            && n.dir == dir
            && StartsWith(n.base, tokens)
            && (ext != [] ==> n == Components(dir, tokens + "_" + base, ext))
  {
    NewNameShape(tokens, base, ext);
    var name := tokens + "_" + base + ext;
    PathComponentsRebuild(dir, name);
    SplitExtKeepsLead(name, tokens);
    if ext != [] {
      NewNameSplit(tokens, base, ext);
      LowerOfLower(ext);
    }
  }

  /** Renaming is idempotent: planning again on the renamed path never renames. */
  lemma RenameIsIdempotent(o: Options, filePath: string)
    requires PlanRename(o, filePath).RenameTo?
    ensures !PlanRename(o, PlanRename(o, filePath).newPath).RenameTo?
    ensures o.allFiles ==> PlanRename(o, PlanRename(o, filePath).newPath) == AlreadyRenamed
  {
    RenameTarget(o, filePath);
  }

  /** The worked example: under the root `/lib`, root excluded, `/lib/Trips/Paris 2023/IMG_001.jpg` is
      renamed to `/lib/Trips/Paris 2023/trips_paris-2023_IMG_001.jpg` (each path written as the
      concatenation of its parts). */
  lemma RenameExample(r: string, t: string, p: string, b: string, e: string)
    requires r == "/lib" && t == "Trips" && p == "Paris 2023" && b == "IMG_001" && e == ".jpg"
    ensures PlanRename(Options(false, false, |r|), r + "/" + t + "/" + p + "/" + (b + e))
            == RenameTo(r + "/" + t + "/" + p + "/" + ("trips_paris-2023" + "_" + b + e))
  {
    var o := Options(false, false, |r|);
    var dir := r + "/" + t + "/" + p;
    var tokens := "trips_paris-2023";
    assert dir != [] && dir[|dir| - 1] != '/' by {
      assert dir[|dir| - 1] == p[|p| - 1];
    }
    ExampleNameFacts(b, e);
    assert MatchesPattern(b) by {
      assert StartsWith(b, REPLACEABLE_PATTERNS[0]);
    }
    assert JoinedTokens(TokenSource(o, dir)) == tokens by {
      assert TokenSource(o, dir) == "/" + t + "/" + p by {
        assert dir == r + ("/" + t + "/" + p);
      }
      TokensExample(t, p);
    }
    PlanOfParts(o, dir, b, e, tokens);
  }

  /** The plan for `dir + "/" + (q + e)` when the name matches a pattern and does not start with the tokens. */
  lemma PlanOfParts(o: Options, dir: string, q: string, e: string, tokens: string)
    requires dir != [] && dir[|dir| - 1] != '/'
    requires q != [] && q[0] != '.' && '/' !in q
    requires e != [] && e[0] == '.' && '.' !in e[1..] && '/' !in e && HasNoUpper(e)
    requires MatchesPattern(q)
    requires JoinedTokens(TokenSource(o, dir)) == tokens && |q| < |tokens|
    ensures PlanRename(o, dir + "/" + (q + e)) == RenameTo(dir + "/" + (tokens + "_" + q + e))
  {
    ComponentsOfParts(dir, q, e);
  }

  /** A path `dir + "/" + (q + e)` with a proper lower-case extension `e` has exactly those components. */
  lemma ComponentsOfParts(dir: string, q: string, e: string)
    requires dir != [] && dir[|dir| - 1] != '/'
    requires q != [] && q[0] != '.' && '/' !in q
    requires e != [] && e[0] == '.' && '.' !in e[1..] && '/' !in e && HasNoUpper(e)
    ensures GetPathComponents(dir + "/" + (q + e)) == Components(dir, q, e)
  {
    assert '/' !in q + e by {
      forall i | 0 <= i < |q + e| ensures (q + e)[i] != '/' {
        if i < |q| { assert (q + e)[i] == q[i]; } else { assert (q + e)[i] == e[i - |q|]; }
      }
    }
    PathComponentsRebuild(dir, q + e);
    SplitExtKnown(q, e);
    LowerOfLower(e);
  }

  lemma ExampleNameFacts(b: string, e: string)
    requires b == "IMG_001" && e == ".jpg"
    ensures b != [] && b[0] != '.' && '/' !in b
    ensures e != [] && e[0] == '.' && '.' !in e[1..] && '/' !in e && HasNoUpper(e)
  {
    assert e[1..] == "jpg";
  }

  // ----- per-file outcome and batch -----

  /** A per-file result: the code and the set of existing paths afterwards. */
  datatype Outcome = Outcome(code: Option<int>, files: set<string>)

  /** `write_directory_structure` against the file system `files`: in dry-run mode nothing is renamed;
      otherwise `os.rename` succeeds when the file exists and the system allows it, and raises OSError
      (code -1) if not. */
  function RenameStep(o: Options, dryRun: bool, failing: set<string>, files: set<string>, filePath: string): Outcome {
    match PlanRename(o, filePath)
    case RenameTo(newPath) =>
      if dryRun then Outcome(Some(UPDATED), files)
      else if filePath in files && filePath !in failing then Outcome(Some(UPDATED), files - {filePath} + {newPath})
      else Outcome(Some(FAILED), files)
    case _ => Outcome(Some(SKIPPED), files)
  }

  /** The code is always one of the three; the file is skipped exactly when there is nothing to rename, fails
      exactly when a live rename is refused, and only a live update changes the file system, by moving the
      file to its new path. */
  lemma RenameStepOutcomes(o: Options, dryRun: bool, failing: set<string>, files: set<string>, filePath: string)
    ensures var r := RenameStep(o, dryRun, failing, files, filePath);
            && (r.code == Some(UPDATED) || r.code == Some(SKIPPED) || r.code == Some(FAILED))
            && (r.code == Some(SKIPPED) <==> !PlanRename(o, filePath).RenameTo?)
            && (r.code == Some(FAILED) <==>
                  PlanRename(o, filePath).RenameTo? && !dryRun && (filePath !in files || filePath in failing))
            && r.files == if r.code == Some(UPDATED) && !dryRun
                          then files - {filePath} + {PlanRename(o, filePath).newPath} else files
  {
  }

  /** Clean mode on the renamer: every `.jpg` fails, because `ImageRenamer` has no `get_description`
      and the resulting exception is caught; every other file is skipped. */
  function CleanCode(filePath: string): (code: Option<int>)
    ensures code == Some(FAILED) <==> LowerExt(filePath) == ".jpg"
    ensures code != Some(UPDATED) && code != None
  {
    if LowerExt(filePath) == ".jpg" then Some(FAILED) else Some(SKIPPED)
  }

  /** The codes and the final file system of a batch over `paths`, in list order. */
  datatype Pass = Pass(codes: seq<Option<int>>, files: set<string>)

  function StepFor(o: Options, mode: Mode, dryRun: bool, failing: set<string>, files: set<string>,
                   filePath: string): Outcome {
    match mode
    case Write => RenameStep(o, dryRun, failing, files, filePath)
    case Clean => Outcome(CleanCode(filePath), files)
  }

  function Run(o: Options, mode: Mode, dryRun: bool, failing: set<string>, files: set<string>,
               paths: seq<string>): (r: Pass)
    ensures |r.codes| == |paths|
    decreases |paths|
  {
    if paths == [] then Pass([], files)
    else
      var before := Run(o, mode, dryRun, failing, files, paths[..|paths| - 1]);
      var out := StepFor(o, mode, dryRun, failing, before.files, paths[|paths| - 1]);
      Pass(before.codes + [out.code], out.files)
  }

  lemma RunExtend(o: Options, mode: Mode, dryRun: bool, failing: set<string>, files: set<string>,
                  paths: seq<string>, i: nat)
    requires i < |paths|
    ensures var before := Run(o, mode, dryRun, failing, files, paths[..i]);
            var out := StepFor(o, mode, dryRun, failing, before.files, paths[i]);
            && Run(o, mode, dryRun, failing, files, paths[..i + 1]).codes == before.codes + [out.code]
            && Run(o, mode, dryRun, failing, files, paths[..i + 1]).files == out.files
  {
    assert paths[..i + 1][..i] == paths[..i];
  }

  /** Every code of a batch is 0, 1 or -1, never `None`. */
  lemma {:induction false} RunCodes(o: Options, mode: Mode, dryRun: bool, failing: set<string>, files: set<string>,
                                    paths: seq<string>)
    ensures forall i :: 0 <= i < |paths| ==>
              IsCode(Run(o, mode, dryRun, failing, files, paths).codes[i])
              && Run(o, mode, dryRun, failing, files, paths).codes[i] != None
    decreases |paths|
  {
    if paths != [] {
      var init := paths[..|paths| - 1];
      var f := paths[|paths| - 1];
      RunCodes(o, mode, dryRun, failing, files, init);
      var before := Run(o, mode, dryRun, failing, files, init);
      RenameStepOutcomes(o, dryRun, failing, before.files, f);
      var codes := Run(o, mode, dryRun, failing, files, paths).codes;
      var last := StepFor(o, mode, dryRun, failing, before.files, f).code;
      assert codes == before.codes + [last];
      assert IsCode(last) && last != None;
      forall i | 0 <= i < |codes| ensures IsCode(codes[i]) && codes[i] != None {
        if i < |before.codes| { assert codes[i] == before.codes[i]; }
      }
    }
  }

  /** Every file of the listing lands in exactly one of the three counts. */
  lemma EveryFileCounted(o: Options, mode: Mode, dryRun: bool, failing: set<string>, files: set<string>,
                         paths: seq<string>)
    ensures var t := Tally(Run(o, mode, dryRun, failing, files, paths).codes);
            t.updated + t.skipped + t.failed == |paths|
  {
    RunCodes(o, mode, dryRun, failing, files, paths);
    TallyBounded(Run(o, mode, dryRun, failing, files, paths).codes);
  }

  /** A dry run renames nothing. */
  lemma {:induction false} DryRunKeepsFiles(o: Options, mode: Mode, failing: set<string>, files: set<string>,
                                            paths: seq<string>)
    ensures Run(o, mode, true, failing, files, paths).files == files
    decreases |paths|
  {
    if paths != [] {
      DryRunKeepsFiles(o, mode, failing, files, paths[..|paths| - 1]);
    }
  }

  /** Clean mode renames nothing and never reports an update. */
  lemma {:induction false} CleanModeChangesNothing(o: Options, dryRun: bool, failing: set<string>,
                                                   files: set<string>, paths: seq<string>)
    ensures Run(o, Clean, dryRun, failing, files, paths).files == files
    ensures Count(Run(o, Clean, dryRun, failing, files, paths).codes, Some(UPDATED)) == 0
    decreases |paths|
  {
    if paths != [] {
      CleanModeChangesNothing(o, dryRun, failing, files, paths[..|paths| - 1]);
    }
    CleanCodesNeverUpdate(o, dryRun, failing, files, paths);
    CountAbsent(Run(o, Clean, dryRun, failing, files, paths).codes, Some(UPDATED));
  }

  lemma {:induction false} CleanCodesNeverUpdate(o: Options, dryRun: bool, failing: set<string>,
                                                 files: set<string>, paths: seq<string>)
    ensures forall i :: 0 <= i < |paths| ==> Run(o, Clean, dryRun, failing, files, paths).codes[i] != Some(UPDATED)
    decreases |paths|
  {
    if paths != [] {
      var init := paths[..|paths| - 1];
      CleanCodesNeverUpdate(o, dryRun, failing, files, init);
      var before := Run(o, Clean, dryRun, failing, files, init).codes;
      var codes := Run(o, Clean, dryRun, failing, files, paths).codes;
      assert codes == before + [CleanCode(paths[|paths| - 1])];
      forall i | 0 <= i < |codes| ensures codes[i] != Some(UPDATED) {
        if i < |before| {
          assert codes[i] == before[i];
        } else {
          assert codes[i] == CleanCode(paths[|paths| - 1]);
        }
      }
    }
  }

  /** A live run keeps every existing path it is not asked to process. */
  lemma {:induction false} LiveRunKeeps(o: Options, mode: Mode, failing: set<string>, files: set<string>,
                                        paths: seq<string>, g: string)
    requires g in files && g !in paths
    ensures g in Run(o, mode, false, failing, files, paths).files
    decreases |paths|
  {
    if paths != [] {
      assert g !in paths[..|paths| - 1] by {
        assert forall x :: x in paths[..|paths| - 1] ==> x in paths;
      }
      LiveRunKeeps(o, mode, failing, files, paths[..|paths| - 1], g);
    }
  }

  /** On a listing without repeats whose files all exist and may all be renamed, a dry run reports the
      same codes as a live run. */
  lemma {:induction false} DryRunSameCodes(o: Options, mode: Mode, failing: set<string>, files: set<string>,
                                           paths: seq<string>)
    requires forall i, j :: 0 <= i < j < |paths| ==> paths[i] != paths[j]
    requires forall i :: 0 <= i < |paths| ==> paths[i] in files && paths[i] !in failing
    ensures Run(o, mode, true, failing, files, paths).codes == Run(o, mode, false, failing, files, paths).codes
    decreases |paths|
  {
    if paths != [] {
      var init := paths[..|paths| - 1];
      var f := paths[|paths| - 1];
      DryRunSameCodes(o, mode, failing, files, init);
      assert f !in init by {
        forall i | 0 <= i < |init| ensures init[i] != f {
          assert init[i] == paths[i];
        }
      }
      LiveRunKeeps(o, mode, failing, files, init, f);
    }
  }

  class ImageRenamer {
    const directory: string
    const includeRoot: bool
    const dryRun: bool
    const allFiles: bool
    const rootDirLength: nat

    /** The paths that exist. */
    var files: set<string>
    /** Paths whose rename the operating system refuses. */
    const failing: set<string>

    constructor (directory: string, includeRoot: bool, dryRun: bool, allFiles: bool,
                 files: set<string>, failing: set<string>)
      ensures this.directory == directory && this.includeRoot == includeRoot
      ensures this.dryRun == dryRun && this.allFiles == allFiles
      ensures this.rootDirLength == |directory|
      ensures this.files == files && this.failing == failing
    {
      this.directory := directory;
      this.includeRoot := includeRoot;
      this.dryRun := dryRun;
      this.allFiles := allFiles;
      this.rootDirLength := |directory|;
      this.files := files;
      this.failing := failing;
    }

    function Config(): Options {
      Options(includeRoot, allFiles, |directory|)
    }

    /** `os.rename(src, dst)`: `ok` is false where the call raises OSError; an existing `dst` is replaced. */
    method Rename(src: string, dst: string) returns (ok: bool)
      modifies this`files
      ensures ok == (src in old(files) && src !in failing)
      ensures files == if ok then old(files) - {src} + {dst} else old(files)
    {
      ok := src in files && src !in failing;
      if ok {
        files := files - {src} + {dst};
      }
    }

    /** `write_directory_structure` */
    method WriteDirectoryStructure(filePath: string) returns (code: Option<int>)
      modifies this`files
      ensures var out := RenameStep(Config(), dryRun, failing, old(files), filePath);
              code == out.code && files == out.files
    {
      var c := GetPathComponents(filePath);
      ghost var plan := PlanRename(Config(), filePath);
      if allFiles || MatchesPattern(c.base) {
        var filenameDirString := c.dir;
        if !includeRoot {
          filenameDirString := Drop(filenameDirString, |directory|);
        }
        var cleanedDirComponents := CleanAll(Split(filenameDirString, '/'));
        cleanedDirComponents := DropEmpty(cleanedDirComponents);
        var newFilenameBase := Join("_", cleanedDirComponents);
        assert newFilenameBase == JoinedTokens(TokenSource(Config(), c.dir));
        if StartsWith(c.base, newFilenameBase) {
          assert plan == AlreadyRenamed;
          return Some(SKIPPED);
        }
        var newFilename := newFilenameBase + "_" + c.base + c.ext;
        var newFilePath := c.dir + "/" + newFilename;
        assert plan == RenameTo(newFilePath);
        if !dryRun {
          var ok := Rename(filePath, newFilePath);
          if !ok {
            // OSError
            return Some(FAILED);
          }
        }
        return Some(UPDATED);
      } else {
        assert plan == Ineligible;
        return Some(SKIPPED);
      }
    }

    /** `clean_directory_metadata`: renamer.py carries a copy of the description writer's method, which cannot run on a `.jpg` here. */
    method CleanDirectoryMetadata(filePath: string) returns (code: Option<int>)
      ensures code == CleanCode(filePath)
    {
      var ext := Lower(SplitExt(filePath).1);
      if ext == ".jpg" {
        // `self.get_description` does not exist: AttributeError, caught
        return Some(FAILED);
      }
      return Some(SKIPPED);
    }

    /** `func(f)`, where `func` is the bound method `execute_on_files` was given. */
    method Apply(mode: Mode, path: string) returns (code: Option<int>)
      modifies this`files
      ensures var out := StepFor(Config(), mode, dryRun, failing, old(files), path);
              code == out.code && files == out.files
    {
      match mode {
        case Write => code := WriteDirectoryStructure(path);
        case Clean => code := CleanDirectoryMetadata(path);
      }
    }

    /** One iteration of the batch: process `paths[i]` after `paths[..i]`, starting from the file set `start`. */
    method ProcessNext(mode: Mode, ghost start: set<string>, paths: seq<string>, i: nat, ghost done: seq<Option<int>>)
      returns (r: Option<int>)
      requires i < |paths|
      requires Pass(done, files) == Run(Config(), mode, dryRun, failing, start, paths[..i])
      modifies this`files
      ensures Pass(done + [r], files) == Run(Config(), mode, dryRun, failing, start, paths[..i + 1])
    {
      ghost var before := Run(Config(), mode, dryRun, failing, start, paths[..i]);
      RunExtend(Config(), mode, dryRun, failing, start, paths, i);
      r := Apply(mode, paths[i]);
      assert r == StepFor(Config(), mode, dryRun, failing, before.files, paths[i]).code;
      assert files == StepFor(Config(), mode, dryRun, failing, before.files, paths[i]).files;
    }

    /** `execute_on_files`: runs the operation on every listed file in order, with no extension
        filter, and counts the codes. */
    method ExecuteOnFiles(mode: Mode, paths: seq<string>) returns (summary: Summary)
      modifies this`files
      ensures var pass := Run(Config(), mode, dryRun, failing, old(files), paths);
              summary == Tally(pass.codes) && files == pass.files
    {
      var results: seq<Option<int>> := [];
      var i := 0;
      while i < |paths|
        invariant 0 <= i <= |paths|
        invariant Pass(results, files) == Run(Config(), mode, dryRun, failing, old(files), paths[..i])
      {
        var r := ProcessNext(mode, old(files), paths, i, results);
        results := results + [r];
        i := i + 1;
      }
      assert paths[..i] == paths;
      summary := Tally(results);
    }

    /** `write_metadata` */
    method WriteMetadata(paths: seq<string>) returns (summary: Summary)
      modifies this`files
      ensures var pass := Run(Config(), Write, dryRun, failing, old(files), paths);
              summary == Tally(pass.codes) && files == pass.files
    {
      summary := ExecuteOnFiles(Write, paths);
    }

    /** `clean_metadata` */
    method CleanMetadata(paths: seq<string>) returns (summary: Summary)
      modifies this`files
      ensures var pass := Run(Config(), Clean, dryRun, failing, old(files), paths);
              summary == Tally(pass.codes) && files == pass.files
    {
      summary := ExecuteOnFiles(Clean, paths);
    }
  }
}
