# image-description-writer, modelled in Dafny

The repository has two command-line tools that organise a photo library by its directory structure.

- **ImageDescriptionWriter** lives in `exif-writer.py`; `writer.py` is a byte-for-byte copy with the same line numbers, so every row below that cites one of the two files holds for the other as well.
  - For every `.jpg` below a root directory it derives a description: the prefix, a space, then the path below the root with every '/' turned into a space.
  - It writes that description into the file's EXIF Description field through exiftool.
  - A description the user wrote is never overwritten. It counts as the user's when it is non-empty, does not contain the marker (`existing_prefix`, by default the prefix) and `force` is off.
  - An identical description is not rewritten.
  - Clean mode removes only descriptions that carry the marker.
- **ImageRenamer** lives in `renamer.py`.
  - It cleans every directory segment below the root into a token of `[a-z0-9_-]`.
  - It renames each camera-named file (`IMG_`, `DSCN`, `839A`, `MVI_`), or each file when `all_files` is set, to `<dir>/<tokens joined by '_'>_<base><ext>`.
  - A file whose base name already starts with the tokens is left alone.

Both tools run one operation per file and return a code: 0 updated, 1 skipped, -1 failed. A batch then counts the codes.

The model has five modules:

- `PyStr` (`pystr.dfy`) holds the Python string operations the tools use: ASCII `lower`, `startswith`, `in`, slicing, `split`, `join` and `replace`.
- `PyPath` (`pypath.dfy`) holds `os.path.split` and `os.path.splitext`.
- `Outcomes` (`outcomes.dfy`) holds the codes, `None`, and the tally of `results.count(...)`.
- `DescriptionEngine` (`description_engine.dfy`) models the description writer.
  - Pure functions hold the decision for one file: `WriteStep` and `CleanStep`.
  - A fold over the file list describes a batch: `Run`.
  - The class `ImageDescriptionWriter` updates its `store` field in place. That field maps each file to what exiftool reports for its Description field.
  - Each method of the class is proved against the pure functions.
- `FilenameEngine` (`filename_engine.dfy`) models the renamer the same way.
  - The per-file decision is `PlanRename`, and `RenameStep` gives its outcome against a file system.
  - The batch is again `Run`.
  - The class `ImageRenamer` updates a `files` set in place, the way `os.rename` changes the file system.

Three behaviours of the code are worth noting, because a reader might expect otherwise:

- **Description.** The trimmed path starts with '/', so the '/' after the root turns into a second space. For root `/lib`, the file `/lib/Trips/Paris 2023/IMG_001.jpg` gets `"<prefix>  Trips Paris 2023 IMG_001.jpg"`, with two spaces and no '/' left (`NewDescriptionExample`).
- **Renaming with no tokens.** When the tokens are empty, every base name starts with them, so the file is skipped rather than renamed to `"_" + base + ext` (`PlanRenameCases`, `RootFilesNeverRenamed`).
- **A description already written.** The description writer returns no code (Python's `None`), not a skip. No count includes it (`WriteStep`, `WriteIsIdempotent`).

## Model

| member | source | states |
|---|---|---|
| DescriptionEngine.Marker | image_description_writer/exif-writer.py:45 | the marker is `existing_prefix` when it is given and non-empty, and the prefix otherwise |
| DescriptionEngine.NewDescription | image_description_writer/exif-writer.py:138-140 | the derived description; its contract is stated by `NewDescriptionShape` (prefix, a space, the trimmed path with '/' replaced by ' '), `MarkerInDerived` and `NewDescriptionExample` |
| DescriptionEngine.ImageDescriptionWriter.constructor | image_description_writer/exif-writer.py:37-50 | the writer keeps prefix, force and dry-run, resolves the marker with the fallback, and records the root length as `len(directory)` |
| DescriptionEngine.NewDescriptionShape | image_description_writer/exif-writer.py:138-140 | the derived description is prefix, a space, and the path without its first `root_dir_length` characters with every '/' replaced by ' '; it starts with `prefix + " "` and its length is known |
| DescriptionEngine.NewDescriptionExample | image_description_writer/exif-writer.py:138-140 | for root `/lib` and `/lib/Trips/Paris 2023/IMG_001.jpg` the description is the prefix, two spaces, then `Trips Paris 2023 IMG_001.jpg` |
| DescriptionEngine.MarkerInDerived | image_description_writer/exif-writer.py:140 | a marker occurring in the prefix occurs in every derived description |
| DescriptionEngine.WriteStep | image_description_writer/exif-writer.py:130-163 | non-`.jpg` files give no code; a raising read or a non-zero number fails exactly when the file is a `.jpg`; a non-empty foreign description without force is skipped and not written; a write happens exactly on code 0 and writes the derived text, which differs from the current one; an identical marked or forced description gives no code; a missing or empty one is always replaced; a non-empty marked or forced one that differs from the derived text is rewritten with code 0 |
| DescriptionEngine.CleanStep | image_description_writer/exif-writer.py:165-182 | a code is always returned; non-`.jpg` files are skipped; code 0, with '' written, exactly when the description is a non-empty string containing the marker; -1 exactly for a raising read or a non-zero number on a `.jpg` |
| DescriptionEngine.Commit | image_description_writer/exif-writer.py:144-146 | only the processed file can change; it takes the written text unless in dry-run mode or the tool refuses the write, and keeps its old value otherwise |
| DescriptionEngine.AllowedFiles | image_description_writer/exif-writer.py:187 | the batch keeps exactly the listed files whose lower-cased extension is in `ALLOWED_EXT` |
| DescriptionEngine.AllowedFilesAppend | image_description_writer/exif-writer.py:187 | the filter works piecewise, so it keeps the listing's order and repeats |
| DescriptionEngine.Run | image_description_writer/exif-writer.py:191-192 | a batch yields exactly one result per file it is given |
| DescriptionEngine.RunCodes | image_description_writer/exif-writer.py:191-192 | every result of a batch is 0, 1, -1 or `None` |
| DescriptionEngine.RunExtend | image_description_writer/exif-writer.py:191-192 | one more file extends the codes by that file's step and commits its write |
| DescriptionEngine.DryRunKeepsStore | image_description_writer/writer.py:144-172 | a dry-run batch leaves every description unchanged, in write mode and in clean mode |
| DescriptionEngine.RunFrame | image_description_writer/exif-writer.py:185-199 | a batch never changes the description of a file it did not process |
| DescriptionEngine.DryRunSameCodes | image_description_writer/exif-writer.py:144 | on a listing without repeats, a dry run reports exactly the codes of a live run, in both modes |
| DescriptionEngine.BatchCountsBounded | image_description_writer/exif-writer.py:195-197 | updated + skipped + failed is at most the number of `.jpg` files processed |
| DescriptionEngine.WriteIsIdempotent | image_description_writer/writer.py:143-150 | after a live write, a second write writes nothing; it returns no code when the text passes the guard (always when the marker occurs in the prefix), and returns a skip otherwise |
| DescriptionEngine.CleanUndoesWrite | image_description_writer/writer.py:170-177 | when the marker occurs in the prefix, a clean after a write returns 0 and leaves '', and a second clean returns 1 |
| DescriptionEngine.DefaultMarkerCleansOwnWrites | image_description_writer/writer.py:45 | with no explicit marker, every derived description contains the marker, so clean recognises it |
| DescriptionEngine.ImageDescriptionWriter.GetDescription | image_description_writer/exif-writer.py:79-83 | returns what the store holds for the file, or `None` |
| DescriptionEngine.ImageDescriptionWriter.SetDescription | image_description_writer/exif-writer.py:106-111 | the success flag is whether the tool accepts the file, and only then does the field change |
| DescriptionEngine.ImageDescriptionWriter.RemoveDescription | image_description_writer/exif-writer.py:114-118 | removing writes the empty string |
| DescriptionEngine.ImageDescriptionWriter.WriteDirectoryStructure | image_description_writer/exif-writer.py:120-163 | the returned code and the new store are those of `WriteStep` and `Commit` on the old store |
| DescriptionEngine.ImageDescriptionWriter.CleanDirectoryMetadata | image_description_writer/exif-writer.py:165-182 | the returned code and the new store are those of `CleanStep` and `Commit` on the old store |
| DescriptionEngine.ImageDescriptionWriter.Apply | image_description_writer/exif-writer.py:192 | applying the batch's operation to one file is that mode's step |
| DescriptionEngine.ImageDescriptionWriter.ProcessNext | image_description_writer/exif-writer.py:191-192 | applying the operation to the next file extends the batch by that file: its code is appended and the store becomes the one `Run` gives for the longer prefix |
| DescriptionEngine.ImageDescriptionWriter.ExecuteOnFiles | image_description_writer/exif-writer.py:185-199 | the summary is the tally of `Run` over the `.jpg` files in list order, and the final store is `Run`'s |
| DescriptionEngine.ImageDescriptionWriter.WriteMetadata | image_description_writer/exif-writer.py:201-202 | a write batch over the listing |
| DescriptionEngine.ImageDescriptionWriter.CleanMetadata | image_description_writer/exif-writer.py:204-205 | a clean batch over the listing |
| Outcomes.Count | image_description_writer/exif-writer.py:195-197 | `results.count(v)` never exceeds the length of the list |
| Outcomes.Tally | image_description_writer/exif-writer.py:195-197 | the three logged counts; stated by `TallyAccountsForAll` and `TallyBounded` |
| Outcomes.TallyAccountsForAll | image_description_writer/exif-writer.py:195-197 | the three counts plus the number of `None` results equal the number of results |
| Outcomes.TallyBounded | image_description_writer/renamer.py:165-167 | the three counts never exceed the number of results, and equal it when no result is `None` |
| PyStr.JoinSplitIsReplace | image_description_writer/exif-writer.py:139 | `' '.join(s.split('/'))` is `s` with every '/' replaced by ' ' |
| PyStr.SplitJoinRoundTrip | image_description_writer/renamer.py:104 | joining the pieces of `s.split('/')` with '/' gives back `s` |
| PyPath.PathSplit | image_description_writer/renamer.py:69-71 | the tail of `os.path.split` has no '/', and the head has no trailing '/' unless it is all separators |
| PyPath.SplitExt | image_description_writer/renamer.py:72-73 | root and extension concatenate to the name; the extension is empty or one '.' followed by no '.' or '/' |
| PyStr.Lower | image_description_writer/exif-writer.py:130 | `str.lower` maps every character to its lower-case form, one for one, and leaves no upper-case letter |
| PyStr.LowerUpperJpg | image_description_writer/exif-writer.py:130 | the camera extension ".JPG" lower-cases to ".jpg" |
| PyPath.LowerExtIsJpg | image_description_writer/exif-writer.py:130 | a file tests as `.jpg` exactly when its `splitext` extension spells ".jpg" in any mix of cases, so `IMG_0001.JPG` is processed |
| PyPath.LowerExtShape | image_description_writer/renamer.py:73 | lower-casing an extension keeps its shape: empty, or one leading dot with no further dot and no separator |
| PyPath.PathSplitJoin | image_description_writer/renamer.py:69-71 | `dir + "/" + name` splits back into `dir` and `name` |
| FilenameEngine.GetPathComponents | image_description_writer/renamer.py:63-74 | the extension is lower-case and empty or a single dot-suffix; base and extension hold no '/'; the directory has no trailing '/' unless it is all separators |
| FilenameEngine.MatchesPattern | image_description_writer/renamer.py:36-41 | a base name matches exactly when it starts with one of `IMG_`, `DSCN`, `839A`, `MVI_`; used by `PlanRenameCases` for eligibility |
| FilenameEngine.PathComponentsRebuild | image_description_writer/renamer.py:69-74 | for a path with a directory part, directory + "/" + base + the extension in its original case rebuilds the path |
| FilenameEngine.StripDisallowed | image_description_writer/renamer.py:84 | the `re.sub` filter keeps only characters of `[a-zA-Z0-9_\- ]` |
| FilenameEngine.StripDisallowedAppend | image_description_writer/renamer.py:84 | the filter works piece by piece: filtering `a + b` is filtering `a`, then `b` |
| FilenameEngine.StripDisallowedSingle | image_description_writer/renamer.py:80-84 | one character is kept when it is in `[a-zA-Z0-9_\- ]` and removed otherwise, never replaced; with `StripDisallowedAppend` this fixes the filter on every string |
| FilenameEngine.CleanDirname | image_description_writer/renamer.py:84-86 | the cleaned name consists only of `[a-z0-9_-]` and is no longer than the input |
| FilenameEngine.CleanDirnameIdempotent | image_description_writer/renamer.py:84-86 | cleaning a cleaned name changes nothing |
| FilenameEngine.CleanDirnameExample | image_description_writer/renamer.py:84-86 | "My Photos!! 2023" cleans to "my-photos-2023", and "" to "" |
| FilenameEngine.CleanAll | image_description_writer/renamer.py:104 | every segment is passed through `clean_dirname`, in order |
| FilenameEngine.DropEmpty | image_description_writer/renamer.py:105 | exactly the non-empty segments survive |
| FilenameEngine.DropEmptyAppend | image_description_writer/renamer.py:105 | dropping empties works piecewise, so the surviving segments keep their order and repeats |
| FilenameEngine.DropEmptySingle | image_description_writer/renamer.py:105 | one segment survives exactly when it is non-empty |
| FilenameEngine.TokenSource | image_description_writer/renamer.py:100-102 | the whole directory with `include_root`, otherwise the directory without its first `len(directory)` characters; used by `PlanRenameCases` and `RootFilesNeverRenamed` |
| FilenameEngine.JoinedTokens | image_description_writer/renamer.py:104-107 | the tokens; stated by `JoinedTokensAreTokens`, `TokensOfSlashes` and `TokensExample` |
| FilenameEngine.JoinedTokensAreTokens | image_description_writer/renamer.py:100-107 | the joined tokens consist only of `[a-z0-9_-]` |
| FilenameEngine.TokensOfSlashes | image_description_writer/renamer.py:104-107 | a directory string of separators only, the empty one included, gives empty tokens |
| FilenameEngine.TokensExample | image_description_writer/renamer.py:100-107 | below the root, `/Trips/Paris 2023` gives the tokens "trips_paris-2023" |
| FilenameEngine.PlanRename | image_description_writer/renamer.py:98-114 | the per-file decision; its contract is `PlanRenameCases`, with `RenameTarget` and `RenameIsIdempotent` |
| FilenameEngine.PlanRenameCases | image_description_writer/renamer.py:98-123 | ineligible exactly when `all_files` is off and no camera pattern starts the base name; skipped exactly when eligible and the base starts with the tokens; otherwise the tokens are non-empty and the new path is `dir + "/" + tokens + "_" + base + ext` |
| FilenameEngine.RootFilesNeverRenamed | image_description_writer/renamer.py:101-111 | a file with no directory below the root is never renamed |
| FilenameEngine.RenamedFileHasDirectory | image_description_writer/renamer.py:109-114 | a file that is renamed has a directory that is non-empty and does not end in '/' |
| FilenameEngine.RenameTarget | image_description_writer/renamer.py:113-114 | the new path is in the same directory and its base starts with the tokens; with an extension it splits into the directory, tokens + "_" + base, and the same lower-cased extension |
| FilenameEngine.RenameIsIdempotent | image_description_writer/renamer.py:109-114 | planning again on a renamed path never renames; with `all_files` it reports the file as already renamed |
| FilenameEngine.RenameExample | image_description_writer/renamer.py:97-120 | `/lib/Trips/Paris 2023/IMG_001.jpg` under root `/lib` is renamed to `/lib/Trips/Paris 2023/trips_paris-2023_IMG_001.jpg` |
| FilenameEngine.RenameStep | image_description_writer/renamer.py:97-131 | the per-file outcome against the file system; its contract is `RenameStepOutcomes` |
| FilenameEngine.RenameStepOutcomes | image_description_writer/renamer.py:97-131 | the code is 0, 1 or -1; 1 exactly when there is nothing to rename; -1 exactly when a live rename is refused; only a live update changes the file system, moving the file to its new path |
| FilenameEngine.CleanCode | image_description_writer/renamer.py:133-150 | in clean mode a `.jpg` always fails, because the renamer has no `get_description`; every other file is skipped; nothing is ever updated |
| FilenameEngine.Run | image_description_writer/renamer.py:159 | a batch yields exactly one result per listed path |
| FilenameEngine.RunCodes | image_description_writer/renamer.py:159 | every result of a batch is 0, 1 or -1, never `None` |
| FilenameEngine.RunExtend | image_description_writer/renamer.py:159 | one more path extends the codes by that path's outcome |
| FilenameEngine.EveryFileCounted | image_description_writer/renamer.py:155-167 | every listed file, unfiltered, lands in exactly one of the three counts |
| FilenameEngine.DryRunKeepsFiles | image_description_writer/renamer.py:117-118 | a dry-run batch renames nothing |
| FilenameEngine.CleanModeChangesNothing | image_description_writer/renamer.py:174-175 | a clean batch leaves the file system unchanged and counts no update |
| FilenameEngine.LiveRunKeeps | image_description_writer/renamer.py:117-118 | a live batch never removes an existing path it was not asked to process |
| FilenameEngine.DryRunSameCodes | image_description_writer/renamer.py:117-120 | on a listing without repeats whose files exist and may be renamed, a dry run reports the codes of a live run |
| FilenameEngine.ImageRenamer.constructor | image_description_writer/renamer.py:50-61 | the renamer keeps its flags and records the root length as `len(directory)` |
| FilenameEngine.ImageRenamer.Rename | image_description_writer/renamer.py:118 | `os.rename` moves an existing, renameable source to the destination, and otherwise fails and changes nothing |
| FilenameEngine.ImageRenamer.WriteDirectoryStructure | image_description_writer/renamer.py:88-131 | the returned code and the new file set are those of `RenameStep` on the old file set |
| FilenameEngine.ImageRenamer.CleanDirectoryMetadata | image_description_writer/renamer.py:133-150 | the returned code is `CleanCode` |
| FilenameEngine.ImageRenamer.Apply | image_description_writer/renamer.py:159 | applying the batch's operation to one file is that mode's step |
| FilenameEngine.ImageRenamer.ProcessNext | image_description_writer/renamer.py:159 | applying the operation to the next path extends the batch by that path: its code is appended and the file set becomes the one `Run` gives for the longer prefix |
| FilenameEngine.ImageRenamer.ExecuteOnFiles | image_description_writer/renamer.py:153-169 | the summary is the tally of `Run` over every listed path in order, and the final file set is `Run`'s |
| FilenameEngine.ImageRenamer.WriteMetadata | image_description_writer/renamer.py:171-172 | a rename batch over the listing |
| FilenameEngine.ImageRenamer.CleanMetadata | image_description_writer/renamer.py:174-175 | a clean batch over the listing |

## Left out

- exiftool: `get_field` and `set_field` run exiftool and decode its JSON output. They are calls into another program, so the `store` map stands for them.
  - `Field` has three kinds of value: a string, a number, or `Garbled`. `Garbled` covers output that raises when read.
  - The `unwritable` set holds the files whose write is refused.
  - JSON lists, objects and floats are not modelled.
  - A written string is assumed to read back as that same string.
  - The OSError raised when exiftool is missing is not modelled.
- `glob.glob`: directory traversal is I/O, so the file listing is a parameter of the batch methods.
- `multiprocessing.Pool`: its point is concurrency. The description writer's batch is modelled sequentially. `Pool.map` returns results in list order, and the files are distinct, so the codes and the final store are the same.
- Logging, `print`, the `update_msg` strings, `argparse` and the `__main__` blocks: output and command-line glue.
- `exiftool_exists`: it has no body.
- `REPLACEABLE_EXTENSIONS`: the renamer's only use of it is commented out (renamer.py:155), so it has no effect.
- Regular expressions: they appear only as the four anchored prefix patterns and the character-class filter of `clean_dirname`, and they are modelled as exactly those.
- `os.path`: modelled as POSIX `split` and `splitext` only.
- ImageRenamer.rootDirLength: the field is stored as in the source, but the renamer trims with `len(self.directory)` directly (renamer.py:102). `Config` does the same.
- PyStr.Lower: lower-cases ASCII letters only. In `clean_dirname` this is exact, because the filter has already removed every non-ASCII character. For extensions (exif-writer.py:130, renamer.py:73) a non-ASCII upper-case letter stays as it is, where Python would fold it.
- PyStr.Split: states only that the result is never empty. The character-level facts the proofs need are separate lemmas: `SplitAfterPiece`, `SplitWithoutSeparator` and `SplitJoinRoundTrip`.
- DescriptionEngine.NewDescriptionExample, FilenameEngine.CleanDirnameExample, FilenameEngine.TokensExample and FilenameEngine.RenameExample: each takes its literal strings as parameters fixed by its `requires`, so the example is stated for exactly those strings.
- DescriptionEngine.DryRunSameCodes: stated for listings without repeated paths, as a directory listing is.
- FilenameEngine.DryRunSameCodes: also requires every listed file to exist and to be renameable. Otherwise a live run reports -1 where the dry run reports 0.
- DescriptionEngine.WriteIsIdempotent: covers a second write on the same file directly after the first. An interleaving with other files follows from `RunFrame`.
- The renamer's handling of other exceptions (renamer.py:127-129): no other exception can arise in the modelled operations, so only the OSError path of `os.rename` gives -1.
