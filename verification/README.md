# CUDA AutoCompat: a verified model

CUDA AutoCompat picks the newest usable NVIDIA driver library on a machine and makes an
application load it. A search process collects directories and libraries, probes every
candidate `libcuda.so.1`, and prints the directory of the best one. An audit library,
loaded into the application through `LD_AUDIT`, runs that process, reads the directory
from a pipe, builds four library paths from it, and redirects the dynamic loader to them.

The Dafny modules follow those parts.

| module | models |
|---|---|
| `Memory`, `Wrappers`, `Sonames` | C byte buffers, `memcpy`/`memmove`/`memset`; `Option`; the library names |
| `Tokenizer`, `PathUtils` | the tokeniser and path functions of `path_utils.c`, as loops over NUL-terminated bytes |
| `LdAudit` | the in-place edit of `LD_AUDIT` and its undo |
| `PipeRead` | the read loop of `find_libcuda`, over any chunking of the pipe |
| `Handoff` | the audit library's state and its three entry points |
| `Paths`, `FileSystems` | `std::filesystem::path` by component; `stat`, `dlopen` and `weakly_canonical` as functions of a path |
| `Search` | `SearchState`, `update_libcuda`, the five search loops and their order, as a class |
| `SearchProofs`, `SearchLaws` | the caches against a search without caches; laws of the whole run |
| `Eligibility` | what the search looks at, in which order, and what it accepts, by file name |
| `Args`, `ArgsLaws` | argument splitting, deduplication, filtering, and the recursion through standard input; when parsing succeeds |
| `Version` | decoding and comparing driver versions |
| `EndToEnd` | the search program from its command line on, and the way to the file the application loads |
| `ExampleRun` | one machine on which the whole program is followed |

Imperative code is imperative here: the search state, the two argument lists, the backup
of `LD_AUDIT` and the audit library's buffers are classes, byte buffers are arrays, and
each loop is a loop proved against a specification function. The theorems are then about
those functions.

## Results about the code as it is

* **Inode caches.** The search caches by `st_ino` and never reads `st_dev`. Call a set of
  directories *inode-faithful* when, among them, two directories with one inode number
  give the same verdict, and two driver files with one inode number probe alike
  (`SearchProofs.InodesFaithful`). That can be checked before a search, by looking at each
  directory once. The caches change no result of a search of those directories *if and
  only if* the set is inode-faithful (`SearchProofs.CachesInvisibleExactly`). Directories
  of one file system are (`SearchLaws.IdentityIsFaithful`). Two volumes whose root
  directories share an inode number are not: the better driver is skipped
  (`SearchLaws.VolumesCollide`). The laws of the whole search ask it of the directories
  that search can look at, and of no others.
* **Restoring `LD_AUDIT`.** Line 116 of `audit.c` clears the slot after the `break` too,
  so `la_version` never reaches its restore at line 176: the branch is proved dead, and
  `LD_AUDIT` stays without the entry. The edit and the undo are proved inverse as the two
  operations they are.
* **"All or none."** The comment at `audit.c:184-185` says that all four paths are set or
  none is. It is right in every run of the two programs together: the search has seen the
  longest soname in the directory it prints, so every path fits
  (`EndToEnd.FoundDoesNotStraddle`, `EndToEnd.ReadDoesNotStraddle`). For
  `la_version` alone, given any directory, it holds if and only if the length does not
  fall between the shortest soname's limit and the longest one's (`Handoff.AllOrNone`);
  `Handoff.StraddlingDirectory` gives such a length. The same condition decides whether
  redirected objects are always bound (`Handoff.RedirectAndBindAgree`).
* **Newlines.** From the command line to the loader, the application gets the four
  libraries of the driver the search chose if and only if that driver's directory has no
  newline in its name (`EndToEnd.ProgramReachesApplication`).
* **Chunked reads.** The loop looks for a NUL in a chunk before it looks for a newline, so
  what it keeps depends on the chunking if and only if a newline precedes a NUL within
  the room left in the buffer (`PipeRead.ChunkIndependence`).
* **Libexec candidate.** It is a sibling of the `lib` directory if and only if that
  directory is not directly under the root (`PathUtils.LibexecIsSibling`): an empty parent
  stands for `.`.

## Model

| member | source | states |
|---|---|---|
| SearchProofs.CachesInvisibleExactly | src/search/search.cxx:104-179 | For any set of directories: cached and cache-free search agree on every list of candidates in them if and only if the set is inode-faithful |
| SearchProofs.OfferIsVerdict | src/search/search.cxx:109-173 | In an inode-faithful set, with caches that come from visited directories of it, a skipped candidate could not have improved the result and one that is weighed is weighed at its uncached version |
| SearchProofs.UpdateIsConsider | src/search/search.cxx:104-179 | In an inode-faithful set, one cached step finds what one uncached step finds and keeps the invariant on all three caches |
| SearchProofs.RunIsPlainRun | src/search/search.cxx:104-179 | From any caches that come from visited directories, a run over candidates in an inode-faithful set equals the cache-free run |
| SearchProofs.PlainRunFindsBest | src/search/search.cxx:164-178 | The cache-free run yields r if and only if r is the leftmost maximum over the eligible candidates (nothing when none is eligible) |
| SearchProofs.LeftmostMaxUnique | src/search/search.cxx:164-178 | The leftmost maximum is unique, so that description determines the result |
| SearchLaws.IdentityIsFaithful | src/search/search.cxx:48-52 | Directories in which an inode number names one object are inode-faithful |
| SearchLaws.VolumesCollide | src/search/search.cxx:128-132 | Two volumes whose roots share an inode number: the search reports 12040 although 13000 is there |
| SearchLaws.SearchFindsBest | src/search/main.cxx:62-71 | If the directories searched are inode-faithful, the phases, with the caches carried over from the loaded-driver phase, find the first usable loaded driver or else the best of the later phases |
| SearchLaws.SearchFindsLeftmostMax | src/search/main.cxx:64-71 | If the directories searched are inode-faithful and no loaded driver is usable, the result is the leftmost maximum over the candidates of the four later phases in order |
| SearchLaws.LoadedDriverWins | src/search/search.cxx:208-218 | If the directories of the listed libcuda.so.1 are inode-faithful and one of them is usable, the first usable one is the result, whatever CUDA_HOME and the paths hold |
| SearchLaws.MorePathsNeverWorse | src/search/search.cxx:257-296 | If the directories of the larger search are inode-faithful, adding search paths anywhere never loses a result and never lowers its version |
| SearchLaws.OrderIrrelevant | src/search/search.cxx:257-296 | If the directories searched are inode-faithful, reordering or repeating search paths never changes the version found |
| SearchLaws.EveryRunSound | src/search/search.cxx:35-179 | In every state of every run, with no hypothesis on inodes: no inode is opened twice, each cached version comes from probing a file in a visited directory, the directory found was visited and has its companions, its version is no error code; and later states only improve the result |
| SearchLaws.RunSound | src/search/search.cxx:104-179 | Any run from a sound state ends in a sound state and only improves the result |
| SearchLaws.CachedVersionsExact | src/search/search.cxx:48-95 | Where inode numbers name one object, a cached version is -1 for the project's own shim and otherwise equals a fresh probe of any file with that inode |
| SearchLaws.ToolkitHoldsLibrary | src/search/search.cxx:196-204 | A toolkit is reported if and only if appending targets/x86_64-linux/lib to it gives the library's canonical directory |
| Eligibility.EligibleExactly | src/search/search.cxx:104-162 | A directory gives version v if and only if it holds libcuda.so.1 and three named companions as regular files, and the library loads, is not the shim, has its three symbols and reports v outside -4..-1 |
| Eligibility.FoundFilesExist | src/search/search.cxx:149-160 | Whatever inode numbers there are, the directory of a result exists, with all four files the loader is sent to |
| Eligibility.FoundIsComplete | src/search/search.cxx:104-173 | If the directories searched are inode-faithful, a result is a complete driver of exactly the version reported |
| Eligibility.UsableExactly | src/search/search.cxx:208-218 | A loaded library is taken if and only if it is named libcuda.so.1 and is a complete driver |
| Eligibility.FirstToolkitInOrder | src/search/search.cxx:257-281 | A search path's toolkit is that of its libcudart.so.11 if that is regular and has one, else of .12, else of .13, else none |
| Eligibility.CandidateExactly | src/search/search.cxx:220-296 | The later phases look at exactly these: compat drivers of toolkits of loaded runtime libraries, of CUDA_HOME, of toolkits of the search paths, and libcuda.so.1 in the search paths |
| Eligibility.LibsInOrder | src/search/search.cxx:220-238 | The candidates of loaded runtime libraries come in the order of the list |
| Eligibility.ToolkitPathsInOrder | src/search/search.cxx:257-282 | The toolkits of the search paths come in the order of the paths |
| Eligibility.PathsInOrder | src/search/search.cxx:284-296 | The drivers in the search paths come in the order of the paths |
| Eligibility.EarlierPhaseWins | src/search/main.cxx:64-71 | If the directories searched are inode-faithful and no loaded driver is usable, a tie goes to the earliest of the four phases, and within it to the first candidate |
| Search.SearchState.GetLibcudaApiVer | src/search/search.cxx:35-96 | The answer and the new version cache, for a missing file, a directory, a cached inode and a fresh one |
| Search.SearchState.UpdateLibcuda | src/search/search.cxx:104-179 | The whole new state equals the step function; the return value is 0 exactly when the result changed and nonnegative exactly when the candidate was usable |
| Search.SearchState.SearchLibrariesLibcuda | src/search/search.cxx:208-218 | The loop over loaded libraries, stopping at the first usable driver |
| Search.SearchState.SearchLibrariesLibcudart | src/search/search.cxx:220-238 | The loop is a run over the toolkits of the loaded runtime libraries |
| Search.SearchState.SearchCudaHome | src/search/search.cxx:240-255 | CUDA_HOME contributes at most its compat driver |
| Search.SearchState.SearchPathsLibcudart | src/search/search.cxx:257-282 | The nested loops are a run over the first toolkit of each search path |
| Search.SearchState.SearchPathsLibcuda | src/search/search.cxx:284-296 | The loop is a run over the drivers in the search paths |
| Search.SearchAll | src/search/main.cxx:62-71 | The five phases in order, the last four only if the first found nothing |
| Paths.CheckPathEndsWith | src/search/search.cxx:181-194 | The loop over two shrinking paths terminates with the specified prefix, or none |
| Paths.EndsWithInvertsAppend | src/search/search.cxx:181-194 | The result is p if and only if appending the suffix's components to p gives the full path |
| Paths.JoinAgreesWithAppend | src/utils/c/path_utils.c:81-116 | path_join on a path printed with single separators gives, byte for byte, the printed form of C++'s operator/ |
| Paths.JoinNamesAppend | src/utils/c/path_utils.c:81-116 | However the directory is spelled, redundant separators included, path_join's result names the path C++'s operator/ gives |
| Paths.ParseWellFormed | src/search/parse_args.cxx:137-150 | Every path parsed from a NUL-free string is well-formed |
| Paths.PrintedPathIsRead | src/search/main.cxx:78 | Printing a path and reading it back gives the path, rooted or relative, with or without a trailing separator |
| Paths.ReadPathIsPrinted | src/search/parse_args.cxx:137-150 | Reading any spelling with single separators and printing it gives that spelling |
| LdAudit.CutThenPutBack | src/rtld-audit/audit.c:98-138 | For any buffer, slot and trailing text, the undo after the edit gives back every byte |
| LdAudit.CutString | src/rtld-audit/audit.c:98-110 | The string in the buffer after the edit is the original without the slot, still terminated |
| LdAudit.CutParts | src/rtld-audit/audit.c:98-110 | Every byte of the edited buffer: the bytes before the slot, those after it up to the terminator, as many zeros as the slot had bytes, and the rest |
| LdAudit.PutBackParts | src/rtld-audit/audit.c:131-135 | Every byte of the restored buffer, for any slot and length of trailing text |
| LdAudit.SanitizeRemovesOne | src/rtld-audit/audit.c:83-117 | The tokens of the edited string are the original ones with exactly the first entry of that file name deleted, in every position |
| LdAudit.SanitizeUnchanged | src/rtld-audit/audit.c:83-117 | The buffer is unchanged if and only if no entry has that file name, or it is empty |
| LdAudit.LdAuditBackup.CutSlot | src/rtld-audit/audit.c:98-110 | The backup holds the slot and zeros, and the buffer is cut |
| LdAudit.LdAuditBackup.Restore | src/rtld-audit/audit.c:119-139 | Puts the slot back and clears the backup; does nothing without a slot |
| LdAudit.LdAuditBackup.Sanitize | src/rtld-audit/audit.c:48-117 | The whole scan, with its early exits; the slot is always clear afterwards |
| LdAudit.MoveUp | src/rtld-audit/audit.c:106-110 | The memmove and memset of the edit |
| Tokenizer.NextToken | src/utils/c/path_utils.c:39-53 | The token, its length and the next cursor, or none at the end of the string |
| Tokenizer.SplitTiles | src/utils/c/path_utils.c:39-53 | Joining the pieces gives the string back, no piece holds the delimiter, and there is one piece more than delimiters |
| Tokenizer.SplitUnique | src/utils/c/path_utils.c:39-53 | Any delimiter-free pieces that join to the string are the split |
| Tokenizer.TokensAreSplit | src/utils/c/path_utils.c:39-53 | The tokens are the split without a final empty piece |
| Tokenizer.Collect | src/utils/c/path_utils.c:39-53 | The loop that calls next_token to its end terminates with exactly the string's tokens |
| Tokenizer.TokensAround | src/utils/c/path_utils.c:39-53 | An entry divides the tokens into those before it, itself, and those after it |
| Tokenizer.TokenInString | src/utils/c/path_utils.c:39-53 | What a call reports is the entry of the C string at its cursor |
| PathUtils.PathPrefix | src/utils/c/path_utils.c:55-79 | The offset of the separator before the rightmost eligible component with the prefix, or -1 |
| PathUtils.PathPrefixUnique | src/utils/c/path_utils.c:55-79 | At most one number fits that description |
| PathUtils.PathPrefixComponents | src/utils/c/path_utils.c:55-79 | By components: what follows the separator found begins with a component that starts with the prefix, no later one that may match does, and with -1 none but perhaps the first does |
| PathUtils.PathJoin | src/utils/c/path_utils.c:81-116 | The joined path with zeros after it, or -1 and an untouched buffer when it does not fit |
| PathUtils.JoinedParts | src/utils/c/path_utils.c:83-92 | A joined path is the parent ("." for an empty one), one separator exactly when neither side brings one, and the child |
| PathUtils.PathFilename | src/utils/c/path_utils.c:118-133 | The bytes after the last separator |
| PathUtils.PathFilename2 | src/utils/c/path_utils.c:135-153 | The same for a C string, with its length |
| PathUtils.FilenameIsEnd | src/utils/c/path_utils.c:118-153 | The filename is the longest end of the path without a separator |
| PathUtils.LibexecCandidate | src/utils/c/search_helper.c:35-47 | The candidate path, or a cleared buffer exactly when there is no prefix or no room |
| PathUtils.LibexecIsSibling | src/utils/c/search_helper.c:35-47 | The candidate is the sibling of the lib directory if and only if the prefix is not empty, and ./libexec/cuda-autocompat-search when it is |
| PipeRead.FindLibcuda | src/utils/c/search_helper.c:76-125 | The buffer holds the directory read, zero-filled, and its length is returned; every failure gives an empty one |
| PipeRead.ReadLoop | src/utils/c/search_helper.c:92-109 | For any pipe, the loop leaves the specified bytes, with zeros in every later byte |
| PipeRead.ReadOnce | src/utils/c/search_helper.c:93-104 | One read keeps the bytes consumed and those still to come together |
| PipeRead.ReadIsClean | src/utils/c/search_helper.c:92-109 | Unless a newline precedes a NUL, any chunking gives the first PATH_MAX-1 bytes cut at the first NUL or newline |
| PipeRead.CleanExactly | src/utils/c/search_helper.c:98-104 | That cut is the longest front of the bytes without NUL and newline, and nothing else is |
| PipeRead.ChunkIndependence | src/utils/c/search_helper.c:92-109 | The result is the same for all chunkings if and only if no newline precedes a NUL in the window |
| PipeRead.RecoveredExactly | src/utils/c/search_helper.c:92-124 | A printed directory is recovered exactly if and only if it fits and has no NUL and no newline |
| Handoff.AuditLibrary.BuildPaths | src/rtld-audit/audit.c:143-173 | The four buffers and lengths represent the four paths of the directory |
| Handoff.AuditLibrary.LaVersion | src/rtld-audit/audit.c:142-180 | Paths, directory and LD_AUDIT after the call; the restore is never reached |
| Handoff.AuditLibrary.LaObjsearch | src/rtld-audit/audit.c:183-199 | Which string a request is answered with |
| Handoff.AuditLibrary.LaObjopen | src/rtld-audit/audit.c:202-219 | Binds exactly the non-empty names that extend one of the paths that are set |
| Handoff.LibraryPathIs | src/rtld-audit/audit.c:161-173 | A path is dir, at most one separator and the soname if and only if that is shorter than PATH_MAX |
| Handoff.PathsSet | src/rtld-audit/audit.c:157-173 | Which of the four paths are set, by the directory's length; an unset first path means that none is |
| Handoff.AllOrNone | src/rtld-audit/audit.c:184-186 | Given any directory, all four or none are set if and only if its length does not straddle the limit |
| Handoff.StraddlingDirectory | src/rtld-audit/audit.c:161-173 | A directory that can be read from the pipe and gets some of its paths but not all |
| Handoff.SonamesExclusive | src/rtld-audit/audit.c:186-195 | No name extends two sonames, so the order of the comparisons is irrelevant |
| Handoff.RedirectExactly | src/rtld-audit/audit.c:183-199 | Whatever paths are set: a name that extends a soname gets that soname's path, and any other name is returned unchanged |
| Handoff.BoundExactly | src/rtld-audit/audit.c:202-219 | For any directory, an object is bound if and only if its name extends the directory's path of one of the four libraries and that path fits |
| Handoff.RedirectAndBindAgree | src/rtld-audit/audit.c:183-219 | Every substituted path is non-empty and bound if and only if no path is cut off |
| Args.PathList.AddPath | src/search/parse_args.cxx:137-172 | List and cache after one more piece, as functions of all pieces so far |
| Args.PathList.ParsePaths | src/search/parse_args.cxx:174-190 | Adds exactly the colon-separated pieces, in order |
| Args.AcceptedExactly | src/search/parse_args.cxx:137-172 | A list holds exactly the existing paths of the right kind, once each, in order of first occurrence |
| Args.AcceptedUnique | src/search/parse_args.cxx:137-172 | That description determines the list |
| ArgsLaws.LibsOfExactly | src/search/parse_args.cxx:137-190 | The library list holds exactly the regular files that pieces of -l arguments name; an empty piece names none |
| ArgsLaws.PathsFromExactly | src/search/parse_args.cxx:137-190 | The search path holds exactly the directories that pieces of -p arguments name, an empty piece naming ".", or without -p those the linker gives |
| ArgsLaws.PathsOfConcat | src/search/parse_args.cxx:174-190 | Pieces stand for paths in their order |
| Args.TokenizersAgree | src/search/parse_args.cxx:174-190 | parse_paths and next_token cut alike but for a final empty piece; pieces number colons plus one |
| Args.ExpandIsFlat | src/search/parse_args.cxx:256-328 | The recursion through standard input is a flattening of the lines in place of each "-" |
| ArgsLaws.ParsesExactly | src/search/parse_args.cxx:256-328 | Parsing succeeds if and only if the command line and every line asked for hold only -p, -l and "-", and no line asked for is missing or empty |
| ArgsLaws.ParsedOptions | src/search/parse_args.cxx:256-328 | A success acts on the options of the command line and of the lines read, in that order, and leaves the lines after them |
| ArgsLaws.EndingOptionFails | src/search/parse_args.cxx:285-298 | Help, an unrecognised option, a missing argument or another error on the command line makes parsing fail |
| Args.Arguments.ActOnOptions | src/search/parse_args.cxx:268-300 | The option loop acts on the options before the first that ends the program |
| Args.Arguments.ReadArguments | src/search/parse_args.cxx:302-326 | The loop over positionals, each "-" read as a line, undisturbed by the nested reset of optind |
| Args.Arguments.ParseArgsHelper | src/search/parse_args.cxx:256-328 | Terminates; success, options acted on and lines left are those of the specification |
| Args.AddDefaults | src/search/parse_args.cxx:231-233 | The linker's directories are added in order |
| Args.ParseArgs | src/search/parse_args.cxx:333-354 | When parsing succeeds, and the two resulting lists |
| Version.DecodesExactly | src/search/main.cxx:41-44 | Decoding 1000 major + 10 minor + patch recovers the triple if and only if minor and patch have one digit |
| Version.ComparesTriples | src/search/search.cxx:170-174 | Comparing encoded versions compares the triples lexicographically |
| EndToEnd.ArgumentsAreSane | src/search/main.cxx:55-64 | What the argument parser accepts meets the search's assumptions on paths |
| EndToEnd.FoundIsPrintable | src/search/main.cxx:73-84 | What is printed for a result reads back as its directory, is not empty and is free of NUL, so empty output means nothing found |
| EndToEnd.PathIsFile | src/rtld-audit/audit.c:161-173 | The path built for a soname is the C++ path of that file in the directory, if it fits |
| EndToEnd.FoundDoesNotStraddle | src/search/search.cxx:149-160 | The longest path of every directory the search finds fits, and the directory does not straddle the limit, because stat fails on longer paths |
| EndToEnd.ReadDoesNotStraddle | src/rtld-audit/audit.c:184-186 | Whatever la_version reads of a directory the search printed sets all four paths or none |
| EndToEnd.DirectoryReachesLibrary | src/utils/c/search_helper.c:92-124 | For a directory without NUL and newline whose longest path fits: whatever reads the pipe makes, the four paths are its files |
| EndToEnd.DriverReachesApplication | src/rtld-audit/audit.c:157-199 | From search to loader, whatever reads the pipe makes: the four sonames are redirected to their files in the directory of the driver the search chose, and those are bound, if and only if that directory's name has no newline |
| EndToEnd.RunProgram | src/search/main.cxx:46-85 | The program from its command line on: exit status, and the directory printed or nothing |
| EndToEnd.ProgramReachesApplication | src/search/main.cxx:46-85 | From the command line to the loader: what is printed reads back as the directory found, whose four files exist; every request for one of them, under any name extending its soname, is answered with it, and exactly those objects are bound, if the directory has no newline, and only then; all four paths are set or none |
| EndToEnd.OtherLibrariesUntouched | src/rtld-audit/audit.c:183-219 | A name that extends none of the sonames is answered with itself, whatever was found; when nothing was found, so is every name, and nothing is bound |
| EndToEnd.ProgramRefuses | src/search/main.cxx:55-58 | The program finds nothing if its arguments are not accepted, or name no search path while the linker gives none |
| EndToEnd.ProgramTakesLoaded | src/search/main.cxx:60-71 | If a library named by -l is a complete driver, the program finds such a one (directories searched inode-faithful) |
| EndToEnd.ProgramFindsBest | src/search/main.cxx:55-71 | Otherwise it finds a driver at least as new as every complete one that the options, the lines read, CUDA_HOME or the linker's directories offer (directories searched inode-faithful) |
| EndToEnd.ProgramFindsOffered | src/search/main.cxx:55-71 | And what it finds is a complete driver that they offer (directories searched inode-faithful) |
| ExampleRun.ExampleFinds | src/search/main.cxx:46-85 | On a machine with one driver, in /d, the command line "-p /d" finds it and prints /d; all assumptions of the laws of the program hold there |

## Left out

- Foreign calls: `stat`, `dlopen`, `dlsym`, `weakly_canonical`, `popen`, `pclose`, `secure_getenv` and `dlinfo` are parameters; the file system does not change during a run and probing it is deterministic.
- Device numbers: the code ignores `st_dev`, so a stat result here has none; `SearchProofs.CachesInvisibleExactly` says exactly when that matters.
- Exceptions of `std::filesystem`: an error other than a missing file, such as a denied permission, throws in the original and is not modelled.
- `cuDriverGetVersion`'s return code and the two error-name calls: they are only logged; a library that stores no version leaves -1.
- getopt: a function from an argument vector to its options, the permuted vector and the first positional; its messages and the usage text are left out.
- Reading standard input: a line is given as its words; end of input is an empty list of lines.
- Spelling of paths: a path is its components and whether it is rooted, so repeated separators are not kept when a path is printed.
- EndToEnd.FoundIsPrintable: assumes that `stat` of the empty path fails, as POSIX says, and that `weakly_canonical` returns a well-formed path.
- EndToEnd.FoundDoesNotStraddle: assumes also that `stat` fails on paths of PATH_MAX bytes or more, counted with single separators.
- EndToEnd.ProgramReachesApplication: assumes the same, and that the strings getopt reports, the linker's directories and CUDA_HOME are C strings.
- Paths.JoinAgreesWithAppend: says nothing of redundant separators, which a component list does not keep; `Paths.JoinNamesAppend` covers them up to spelling.
- Bytes: characters stand for bytes, and only their equality with NUL, newline and delimiters matters.
- Pointers: a pointer with a length is an offset into a sequence, so the null-pointer guards of the path functions and negative lengths do not occur; `path_join`'s length arithmetic does not overflow.
- LdAudit.LdAuditBackup.CutSlot: needs the slot to fit the backup's PATH_MAX bytes, which the original does not check.
- LdAudit.LdAuditBackup.Sanitize: needs the same of the entry it would cut.
- Handoff.AuditLibrary.LaVersion: needs the same, and shows the restore unreachable in place of calling it.
- The fallback of `find_search_helper` to `PATH` (search_helper.c:60-70): its comparison with -1 is reversed, so it does not return the entry that holds the helper.
- `src/ifunc/libcuda.c`: not part of the build.
- Logging, the `DlLibrary` wrapper, log levels, stubs, examples and the build scripts: they decide nothing modelled here.
