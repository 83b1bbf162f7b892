# Scene loading and OBJ preprocessing of the g3n demo, in Dafny

The demo in `main.go` reads a small scene-description text and builds a scene from it.
Its own logic has two parts, and this project models both.

- **The scene reader.** A single line scanner walks the scene file.
  - A line `begin room` opens a room block. The block is read up to the line `end room` and sets the camera.
  - A line `begin roomobject` opens an object block. The block is read up to any line starting with `end`.
  - Every other line is skipped.
  - `loadProps` reads a block. It trims each line and keeps the `key=value` lines as properties. A block that runs out of input keeps what it read.
  - `ParseRoom` and `ParseRoomObject` turn the properties into records. A missing or unparsable number becomes zero.
  - An object that names a file has its model loaded through the preprocessing cache, under the assets directory (`LoadModelToGroup`).
- **The OBJ preprocessing cache** (`ObjPreprocessCache`). The cache file of a model is the model's path with `.pr` appended.
  - If the cache file exists, it is used unchanged.
  - Otherwise it is created from the model file. Every smoothing-group statement (a line matching `^s\s.`) is left out. Each kept line is written with one newline, one write per line.

Modules:

- `Text`: the Go library behaviour that the code relies on: `strings.TrimSpace`, `strings.Split` on one character, `bufio.ScanLines` line splitting, and `fmt.Sprintln` output.
- `Numbers`: the decimal syntax `strconv.ParseFloat` accepts, read as an exact value.
- `Props`: `loadProps` as a method over the scanned lines and a cursor, specified by the function `ReadBlock`.
- `Records`: the `Room` and `RoomObject` records, their decoders, and `ParseRoom` and `ParseRoomObject`.
- `Scene`: the commands the scanning loop reads (`Commands`), the camera the last room sets, and the model files handed on.
- `Cache`: the smoothing-group filter, and a `FileSystem` class (file contents by path plus a write counter) whose `ObjPreprocessCache` method is proved against the function `CacheStep`.
- `Loader`: `ParseLoadScene` and `LoadModelToGroup` as methods on that filesystem. `ParseLoadScene` is proved against the fold `LoadAll` over the scene's commands; `LoadModelToGroup` is proved against `CacheStep` and `WritesFor`, one cache step on the model path under the assets directory.
- `Scenarios`: concrete scene texts and what is read from them.

The scene file is scanned once, and both the block readers and the scanning loop use the same cursor. In the model this is a sequence of lines and an index. Each block reader returns its properties and the index after the block.

Behaviour worth knowing, as the code has it:

- A trimmed line is kept only when `strings.Split` gives exactly two pieces, that is, when it holds exactly one `=`. So `a=b=c` sets nothing (`Props.EntryShape`).
- `\s` in `^s\s.` is the RE2 class: space, tab, newline, form feed and carriage return. It does not include the vertical tab or Unicode spaces, and `.` does not match a newline (`Cache.NotSmoothingExamples`).
- A cache line is not always preserved byte for byte. A source line that ends in two carriage returns loses one when it is scanned, and another when the cache is read back (`Cache.CarriageReturnNotPreserved`).

## Model

| member | source | states |
|---|---|---|
| Text.TrimSpace | main.go:144 | `strings.TrimSpace`: the line without leading and trailing `unicode.IsSpace` characters; the result is no longer than the line and neither starts nor ends with white space |
| Text.TrimSpaceShape | main.go:144 | trimming removes only white space, and only from the two ends; what is left is a contiguous part of the line that neither starts nor ends with white space |
| Text.TrimSpaceKeeps | main.go:144 | a line that neither starts nor ends with white space is left unchanged by trimming |
| Text.TrimSpaceIdempotent | main.go:144 | trimming twice is the same as trimming once |
| Text.Split | main.go:148 | `strings.Split` on one character: the pieces between the separators, always at least one |
| Text.SplitPieces | main.go:148 | no piece of a split holds the separator |
| Text.SplitJoin | main.go:148 | joining the pieces with the separator gives back the line |
| Text.SplitCount | main.go:148-149 | a split has one more piece than the line has separators |
| Text.SplitOnce | main.go:148-149 | a line with exactly one `=` splits into the text before it and the text after it |
| Text.ScanLines | main.go:117-118 | the lines `bufio.ScanLines` yields from a text: split at each newline, one trailing carriage return dropped, a last unterminated line kept; never more lines than characters |
| Text.ScanLinesCons | main.go:117-118 | the scanner yields the text before the first newline, less one trailing carriage return, then continues after that newline |
| Text.ScanLinesNoNewline | main.go:117-118 | no scanned line contains a newline |
| Text.Unlines | main.go:234 | each line written with `fmt.Sprintln`, that is, followed by a newline; the text ends in a newline when there is a line |
| Text.UnlinesAppend | main.go:234 | writing two runs of lines one line per call gives the first run's text followed by the second's |
| Text.ScanUnlines | main.go:230-234 | lines with no newline and no trailing carriage return, written one per line, scan back to the same lines |
| Numbers.ParseNum | main.go:190-198 | `strconv.ParseFloat` on decimal text (optional sign, digits with at most one `.`, optional exponent), as an exact value or None on a syntax error; a number always holds a digit |
| Numbers.EmptyRejected | main.go:168 | the empty text of a missing key is a syntax error |
| Numbers.LeadingSpaceRejected | main.go:168-171 | text starting with white space is a syntax error; the parse does not trim |
| Numbers.ReadDigits | main.go:190-198 | a run of digits to the end accumulates into the mantissa, and a mantissa needs at least one digit |
| Numbers.DigitsParse | main.go:190-198 | a non-empty run of digits parses to its decimal value |
| Numbers.NegatedDigitsParse | main.go:190-198 | a minus sign in front of digits negates the value |
| Numbers.NatTextValue | main.go:190-198 | the decimal text of a natural number has that number as its value |
| Numbers.IntTextRoundTrip | main.go:190-198 | parsing the decimal text of an integer gives back that integer |
| Props.Ends | main.go:161 | the terminator test on a trimmed line: `^end room$` is the exact line `end room`, `^end` (main.go:183) is any line starting with `end` |
| Props.Entry | main.go:148-149 | the key and value of a trimmed line that splits into exactly two pieces; neither holds `=`, and the line is key, `=`, value |
| Props.EntryShape | main.go:148-149 | a trimmed line is an entry exactly when it holds one `=`; then the key is the text before it and the value the text after it |
| Props.Store | main.go:148-152 | one line's effect on the properties: its entry is stored, nothing is removed, and any new key is the line's entry |
| Props.StoreEffect | main.go:148-152 | a line holding one `=` after trimming sets its key and replaces any earlier value; any other line changes nothing |
| Props.StoreLine | main.go:144-152 | a line `key=value` that trimming leaves unchanged, with no `=` in the key or the value, sets that key to that value |
| Props.PropsOf | main.go:141-154 | the properties of a block body, its lines stored in order |
| Props.ReadBlock | main.go:140-157 | the block read from a cursor: the properties of the body up to the terminator, and the cursor past the terminator or at the end of the input, never before the start |
| Props.BodyEnd | main.go:142-147 | the body of a block ends at the first line that matches the terminator after trimming, or at the end of the input |
| Props.LoadProps | main.go:140-157 | the loop returns the properties of the block body, and a cursor just past the terminator or at the end of the input |
| Props.LastEntryWins | main.go:151 | a key keeps the value of its last entry line |
| Props.UnsetKeyAbsent | main.go:141-153 | a key that no line sets is missing from the block |
| Props.PropsFromLines | main.go:141-153 | every property was set by some line of the body |
| Props.ReadsNothingAfter | main.go:145-147 | a block that reaches its terminator reads nothing after it |
| Props.BodyEndSame | main.go:142-147 | two inputs that agree up to and including the terminator have the same body end |
| Props.UnterminatedBlock | main.go:155-156 | a block that runs out of input keeps every line it read, and the cursor ends at the end of the input |
| Props.TerminatorAsymmetry | main.go:159-184 | `^end room$` matches only the exact line; `^end` matches every line starting with `end`, including `end room` |
| Records.Lookup | main.go:168 | `props[key]`: the value stored for the key, or the empty string |
| Records.Field | main.go:168-171 | a numeric field: the parsed value of the key's text, zero when parsing fails |
| Records.DecodeRoom | main.go:168-178 | the `Room` record (main.go:28-33) with each camera field from its own key |
| Records.DecodeRoomObject | main.go:190-211 | the `RoomObject` record (main.go:35-46) with the file and each number from its own key |
| Records.FieldValue | main.go:168-171 | a numeric field is the parsed value of its key, and zero when the key is missing or its text does not parse |
| Records.EmptyRoom | main.go:168-178 | an empty block gives an all-zero room |
| Records.EmptyRoomObject | main.go:190-211 | an empty block gives an all-zero object with no file |
| Records.RoomIgnoresOtherKeys | main.go:168-178 | only the four camera keys affect a room |
| Records.RoomObjectIgnoresOtherKeys | main.go:190-211 | only the ten object keys affect an object |
| Records.ParseRoom | main.go:159-179 | reads the block up to `end room` and decodes each camera field from its own key |
| Records.ParseRoomObject | main.go:181-212 | reads the block up to any line starting with `end` and decodes the file and nine numbers from their keys |
| Scene.OpensRoom | main.go:115-119 | `^begin room$` on the untrimmed line |
| Scene.OpensRoomObject | main.go:116-124 | `^begin roomobject$` on the untrimmed line |
| Scene.Commands | main.go:117-135 | the commands the scanning loop reads from a cursor on: a room or object block decoded at each opening line, other lines skipped; `Scene.CommandsBounded` bounds their number |
| Scene.WouldLoad | main.go:126 | an object command is handed to model loading when its file name is not empty |
| Scene.OpeningStep | main.go:117-125 | at an opening line, the decoded block is the next command, and scanning continues from the cursor the block reader returns |
| Scene.OpeningLinesMonotone | main.go:117-135 | fewer opening lines remain further on |
| Scene.SkipsOtherLines | main.go:117-124 | a run of lines that open nothing produces nothing |
| Scene.NoOpeningNoCommands | main.go:117-135 | a scene without an opening line produces no command |
| Scene.FirstBlock | main.go:117-125 | the first opening line always opens a block, read with that block's terminator |
| Scene.CommandsBounded | main.go:117-135 | there are never more commands than opening lines, because lines inside a block open nothing |
| Scene.LastRoom | main.go:119-123 | where the camera ends up: the room of the last room command, or none when there is no room command |
| Scene.LastRoomIsLast | main.go:119-123 | the camera is set by the last room block |
| Scene.LastRoomNone | main.go:119-123 | without a room block the camera is untouched, and only then |
| Scene.ModelFiles | main.go:124-127 | the model files handed to `LoadModelToGroup`, in command order: the file of each object command whose file name is not empty; never more than there are commands |
| Scene.ModelFilesAppend | main.go:117-127 | model files are loaded in command order |
| Scene.ModelFilesExactly | main.go:124-127 | a file is loaded exactly when some object block names it and the name is not empty |
| Cache.IsSmoothing | main.go:228 | `^s\s.`: an `s`, an RE2 white-space character, and one more character that is not a newline |
| Cache.Kept | main.go:231-236 | the source lines that are not smoothing-group statements, in order (characterised by `Cache.KeptMembers`) |
| Cache.Preprocessed | main.go:230-236 | the text a new cache file receives: the kept lines, each followed by a newline |
| Cache.ReadText | main.go:222 | the text of a file, empty when it is missing, since the open error is ignored; the scene file is read the same way (main.go:103, `Loader.SceneLines`) |
| Cache.CacheStep | main.go:214-244 | the files after one call: unchanged when the cache file exists, otherwise with the cache file created from the preprocessed source |
| Cache.WritesFor | main.go:230-236 | the writes of one call: one per kept line when the cache is created, none on a cache hit |
| Cache.KeptAppend | main.go:231-236 | the filter works line by line |
| Cache.KeptMembers | main.go:233-235 | a line is kept exactly when it is a source line and not a smoothing-group statement |
| Cache.KeptIdempotent | main.go:233-235 | the filter never adds lines, and filtering its output again changes nothing |
| Cache.PreprocessedRescan | main.go:230-235 | reading the cache file back gives the kept lines in order, provided no kept line keeps a trailing carriage return after scanning |
| Cache.CarriageReturnNotPreserved | main.go:230-234 | a source line ending in two carriage returns does not survive being written and read back |
| Cache.SmoothingExample | main.go:228-236 | `s 1`, `v 0 0 0`, `s off` preprocess to `v 0 0 0` alone |
| Cache.NotSmoothingExamples | main.go:228 | `^s\s.` needs a lower-case `s` at the start, a white-space character, and one more character that is not a newline; neither the vertical tab nor a Unicode space such as U+00A0 counts as white space, while a newline does |
| Cache.CachePath | main.go:216 | the cache path is the model path followed by `.pr` |
| Cache.CacheStepEffect | main.go:218-244 | afterwards the cache file exists; an existing cache file is left unchanged, a missing one is created from the filtered source, and no other file changes |
| Cache.CacheStepIdempotent | main.go:218-243 | a second call for the same model changes nothing and writes nothing |
| Cache.SourceIsNotCache | main.go:216 | the cache path never equals the model path |
| Cache.WriteStep | main.go:231-236 | one more source line adds one write of that line and a newline, unless it is a smoothing-group statement |
| Cache.FileSystem.ObjPreprocessCache | main.go:214-245 | returns the cache path; leaves the files as `CacheStep` says, and makes one write per kept line when it creates the cache |
| Loader.ObjPath | main.go:88 | the model path: the assets directory, `/`, and the file |
| Loader.LoadOne | main.go:119-133 | one command's effect: a room sets the camera; an object naming a file is cached and placed; an object without a file changes nothing |
| Loader.LoadAll | main.go:117-135 | the effect of the commands applied in order |
| Loader.SceneLines | main.go:103-104 | the scanned lines of the scene file; the open error is ignored, so a missing scene file reads as no lines |
| Loader.Run | main.go:117-135 | the effect of the scanning loop from a cursor on, block by block |
| Loader.LoadModelToGroup | main.go:86-91 | the model under the assets directory goes through the cache, and the cache file is the path that gets decoded |
| Loader.PlaceRoomObject | main.go:124-133 | an object that names a file is cached and placed; an object with no file changes nothing |
| Loader.ParseLoadScene | main.go:102-135 | the camera, the placed models and the files are those of loading the scene's commands in order |
| Loader.RunLoadsCommands | main.go:117-135 | the scanning loop loads exactly the commands of the scene, in order |
| Loader.LoadStep | main.go:117-135 | loading a command and then the rest is loading them all in order |
| Loader.PlacementsOfModelFiles | main.go:124-131 | the k-th placed model is decoded from the cache file of the k-th model file |
| Loader.Placements | main.go:124-131 | the groups placed for the commands, in order: for each object naming a file, the cache file of that file under the assets directory, with the object's transform |
| Loader.LoadAllPlaces | main.go:124-131 | loading places one model per object that names a file, in order, after those already placed |
| Loader.LoadAllCamera | main.go:119-123 | the camera ends at the last room block, and stays as it was without one |
| Loader.LoadAllGrows | main.go:124-127 | loading never removes or changes an existing file, and never decreases the write count |
| Loader.LoadAllCaches | main.go:124-127 | after loading, every model file of the scene has its cache file |
| Loader.LoadAllCached | main.go:241-243 | when every cache file is already there, loading creates and writes nothing |
| Loader.Reload | main.go:102-135 | loading the scene a second time gives the same camera, models and files, and makes no write |
| Scenarios.PlainEntry | main.go:144-151 | a `key=value` line with no white space at its ends is no terminator and sets its key |
| Scenarios.RoomBlockStops | main.go:140-157 | `a=1`, `end room`, `a=2` read as a room block gives a=1, with the cursor on `a=2` |
| Scenarios.NumberExamples | main.go:168 | `1.5` parses to 1.5 and `2` to 2 |
| Scenarios.ExponentExample | main.go:190 | `-2.5e-1` parses to -0.25 |
| Scenarios.RejectedExamples | main.go:190 | ` 1.5`, `1.5.` and `.` are syntax errors |
| Scenarios.OneRoom | main.go:119-123 | a room block that sets `cameraposx=1.5` puts the camera at (1.5, 0, 0) and scanning continues after `end room` |
| Scenarios.RoomBlock | main.go:140-157 | a room block whose body is one plain `key=value` line holds just that property, and the cursor ends past `end room` |
| Scenarios.RoomDecode | main.go:168-178 | `cameraposx=1.5` alone decodes to the camera at (1.5, 0, 0) with yaw 0 |
| Scenarios.OneRoomObject | main.go:124-125 | an object block with `file=foo.obj` and `locationx=2` gives that object at (2, 0, 0), and scanning continues after the block |
| Scenarios.ObjectBlock | main.go:140-157 | the object block body is read up to `end roomobject` |
| Scenarios.ObjectBody | main.go:142-147 | in that block neither property line is a terminator and `end roomobject` is, so the body is the two property lines |
| Scenarios.ObjectProps | main.go:148-152 | the lines `file=foo.obj` and `locationx=2` set exactly those two keys |
| Scenarios.FooDecode | main.go:190-211 | those two properties decode to `foo.obj` at (2, 0, 0), with zero scale and rotation |
| Scenarios.SpacedEntry | main.go:144-151 | `cameraposx = 1.5` sets the key `cameraposx ` to ` 1.5`, because spaces around `=` are kept |
| Scenarios.SpacedEntryIgnored | main.go:168-178 | so that line leaves the camera at zero |
| Scenarios.IndentedOpening | main.go:115-124 | an indented `begin room` opens nothing, because opening lines are not trimmed |
| Scenarios.IndentedTerminator | main.go:144-145 | an indented `end room` does end a room, because lines are trimmed before the terminator test |

## Left out

- Numbers.ParseNum: reads the decimal syntax as an exact rational value. It does not model rounding to `float32` and back, `Inf` or `NaN`, hexadecimal or underscored forms, or range errors. Under `ParseFloat` a range error yields ±Inf, not zero, which this model does not capture.
- Records.DecodeRoom, Records.DecodeRoomObject: the fields are exact reals, not `float64` values rounded through `float32`. The engine calls that narrow them to `float32` (`SetPosition`, `SetScale`, `SetRotation`) are left out.
- The engine itself is left out: the window, renderer, camera and scene-graph objects, `obj.Decode`, `NewGroup`, and the `os.Exit` on a decoding error. A placed model is the cache path it would be decoded from, plus the object record.
- `main`, its command-line flag, and the fixed scene file name are left out. The assets directory and the scene path are parameters.
- All printing (property dumps, cache messages, the object's file name) is left out, because it does not affect the result.
- The `panic` on a stat error other than "does not exist" is left out: in a map from paths to contents, a path is either present or missing.
- Errors from creating or writing the cache file are left out. So are failures to open the scene or model file other than a missing file, which reads as empty, as in the code.
- `bufio.Scanner`'s 64 KiB token limit is left out: a longer line stops scanning in the code, but not in the model.
- Paths are compared as strings: different spellings of one file (`//`, `./`, `..`, symbolic links, case-insensitive file systems) are different files in the model. So two object blocks naming `foo.obj` and `./foo.obj` create two cache files in the model where the program creates one, and a source stored under another spelling reads as missing.
- Strings are sequences of characters, not UTF-8 bytes. Invalid UTF-8 and byte-level regular-expression matching are not modelled.
- The scene file is read completely when scanning starts, rather than a buffer at a time. Nothing in the program writes to it while it is read, so the lines are the same.
- Loader.ParseLoadScene: returns the last room's camera and the list of placements. It does not return the engine objects. `scene.Add(cam)` being called once per room block is not modelled.
