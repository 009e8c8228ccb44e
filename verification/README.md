# Resonance: command rules, export conversion and sample clamping

Resonance turns an audio file into a 3D "spectrogram terrain" that can be
previewed or exported. This project is a Dafny model of three small,
self-contained pieces of its logic, with their properties proved:

- **Command interpreter** (`Source/Main.cpp`), module `Commands`. It covers
  the parameter-count check and its error message, the audio file-name rule,
  the dispatch of a token line to `configure`, `view`, `export`, `exit` or
  `help`, and the read-evaluate loop.
- **Exporter** (`Source/Exporter.cpp`), module `Exporter`. It covers the
  y-up/z-up vertex remap, the grouping of the flat index list into triangle
  faces, the two-mesh scene, the checks on the format and orientation
  arguments and their order, and the output path.
- **Decoder sample stage** (`Source/Decoder.cpp`), module `Decoder`. It
  covers seeding the sample buffer with `resize(channel_count)`, and the
  per-frame loop that clamps samples to [-1, 1], counts clipped samples and
  measures the frame peak.

Supporting modules:

- `Console` joins the two for an `export` line: the interpreter's checks run
  first, then the exporter's.
- `Wrappers` holds the `Result`, `Option` and `Outcome` types. A thrown
  `std::runtime_error` becomes a `Failure` that carries its message.
- `Decimal` models `std::to_string` and reads a number back from its digits.
- `Text` holds the prefix test that the interpreter and the exporter share.
- `Meshes` is the generator's `Mesh` struct (`Source/Generator.hpp`).

Notes on how the model reads the code:

- The file-name pattern `^[a-zA-Z0-9-.]+.(flac|wav|mp3)$` uses the ECMAScript
  grammar, the default for `std::regex`. Inside the brackets, `-` after the
  range `0-9` is a literal dash and `.` is a literal period. The `.` before the
  extension is not escaped, so it matches any character except a line
  terminator. As a result, `songxwav` and `song_wav` are accepted, even though
  the help text says a name holds only alphanumerics, dashes and periods.
  `Commands.AcceptedNames` records this.
- `exit` and `help` skip the parameter-count check, so extra tokens after them
  are ignored.
- `main` calls `Generator::configure` with five values, but
  `Source/Generator.hpp` declares six (it adds `logarithmic`). The model keeps
  the five raw `configure` tokens that the console passes on.
- `clipped_samples` is never reset in `Source/Decoder.cpp`, so the count keeps
  growing across decodes. `peak` is reset at the start of every frame, so after
  loading it is the peak of the last frame only. That peak is taken before
  clamping, so it can be above 1.
- `data.resize(1)` keeps the first element of a non-empty buffer. After
  `destroy` clears the buffer, it creates a single `0`, which then comes before
  every decoded sample.

## Model

| member | source | states |
|---|---|---|
| Decimal.Show | Source/Main.cpp:96-98 | a count is written as a non-empty string of digits, with no leading zero unless the count is 0 |
| Decimal.ValueOfShow | Source/Main.cpp:96-98 | reading the written count back gives the count, so the numbers in the message are exact |
| Decimal.ShowInjective | Source/Main.cpp:96-98 | different counts are written differently |
| Decimal.ShowOfValue | Source/Main.cpp:96-98 | every digit string without a leading zero (other than "0" itself) is the written form of the number it denotes, so the written forms are exactly these strings |
| Commands.ReadArityMessageRoundTrip | Source/Main.cpp:95-98 | the parameter-count message can be parsed back after the quoted command. It gives the required and given counts. It says "parameter" exactly when one is required, "only" exactly when at least one was given, and "was" exactly when one was given |
| Commands.ReadNumberParses | Source/Main.cpp:96-98 | a count read from the message is a written count (no zero padding) followed by text that does not start with a digit |
| Commands.ReadArityTailExact | Source/Main.cpp:95-98 | text after the quoted command that reads back as two counts in the intended wording is exactly the message tail for those counts |
| Commands.ReadArityMessageExact | Source/Main.cpp:95-98 | reading back determines the message: a text about a command reads back as two counts in the intended wording exactly when it is the message built from them |
| Commands.ArityMessage | Source/Main.cpp:95-98 | builds the parameter-count message: the quoted command, "requires", the required count with "parameter" or "parameters", "but", an optional "only", the given count, "was" or "were", and "given." |
| Commands.ValidateCommandParameters | Source/Main.cpp:93-99 | the check fails if and only if the given count differs from the required count; a failure's message reads back as both counts in that wording, which (by `Commands.ReadArityMessageExact`) fixes it as the exact text the source builds |
| Commands.ValidName | Source/Main.cpp:104 | the file-name rule, checked for each extension in turn: the name ends in that extension, the character before it is not a line terminator, and every earlier character (at least one) is a letter, digit, '-' or '.' |
| Commands.MatchGivesSplit | Source/Main.cpp:104 | a name that ends in a listed extension with a name run and one more character before it splits as the pattern requires |
| Commands.SplitGivesMatch | Source/Main.cpp:104 | a split as the pattern requires makes the name pass the per-extension rule for the extension that ends it |
| Commands.ValidNameIsPatternMatch | Source/Main.cpp:104 | a name is accepted exactly when it is a non-empty run of letters, digits, '-' or '.', then one non-line-terminator character, then exactly "flac", "wav" or "mp3" |
| Commands.RefusedNames | Source/Main.cpp:104 | "a.WAV" is refused (the extension is case-sensitive), and so are ".wav" (empty name part) and "my song.wav" (a space in the name part) |
| Commands.AcceptedNames | Source/Main.cpp:104 | "shadowplay.flac" and "a-b.c.mp3" are accepted, and so are "songxwav" and "song_wav", because the character before the extension is unrestricted |
| Commands.ValidateName | Source/Main.cpp:102-108 | a name passes exactly when the pattern matches it; otherwise the check fails with the invalid-name message |
| Commands.Arity | Source/Main.cpp:134-153 | the dispatch table: configure takes 5 parameters, view takes 1, export takes 3; no other word has a checked count |
| Commands.Interpret | Source/Main.cpp:126-162 | an empty line fails with "No command entered."; configure, view and export with the wrong number of parameters fail with the parameter-count message for that command's arity (5, 1, 3); an unknown word fails with "Unrecognized command."; an accepted line always starts with the spelling of its command; a line yields the exit command exactly when its first token is "exit"; a help line is accepted whatever follows the command word |
| Commands.InterpretRefusedName | Source/Main.cpp:141-153 | a view or export line with the right parameter count but a name the pattern refuses fails with the invalid-name message |
| Commands.InterpretRender | Source/Main.cpp:130-161 | spelling a command as tokens and interpreting it gives the command back exactly when the command is well-formed (5 settings, or a file name the pattern accepts) |
| Commands.InterpretExact | Source/Main.cpp:134-153 | apart from exit and help, an accepted line is exactly the spelling of its command, with no extra tokens |
| Commands.ArityCheckedBeforeName | Source/Main.cpp:141-153 | for view and export, a wrong parameter count is reported instead of the invalid-name error, whatever the name is |
| Commands.InterpretEachAt | Source/Main.cpp:117-166 | outcome i of a run is the interpretation of line i, and it is the exit command exactly when line i starts with "exit" |
| Commands.RunSession | Source/Main.cpp:117-166 | the outcomes are the interpretations of the lines, in order, up to and including the first line whose command word is "exit"; the session ends exactly there and no other line ends it; without such a line, every line is evaluated |
| Exporter.ToExportAxes | Source/Exporter.cpp:47-48 | the vertex remap: (x, y, z) becomes (x, -z, y) for a z-up export and is copied unchanged for y-up |
| Exporter.ExportAxesRoundTrip | Source/Exporter.cpp:43-49 | the export remap is undone by its inverse, in both directions; in z-up the generator's height becomes the exported z; vector lengths are preserved |
| Exporter.FlattenAt | Source/Exporter.cpp:65-68 | corner k of face i is entry 3i+k of the flattened index list |
| Exporter.GroupFaces | Source/Exporter.cpp:55-69 | groups a flat index list whose length is a multiple of 3 into length/3 faces, where face i holds indices 3i, 3i+1 and 3i+2 |
| Exporter.FlattenGroupFaces | Source/Exporter.cpp:55-69 | concatenating the faces grouped from an index list gives back that index list |
| Exporter.GroupFlattenFaces | Source/Exporter.cpp:55-69 | grouping the flattened index list of any faces gives back those faces |
| Exporter.SceneMeshOf | Source/Exporter.cpp:32-70 | conversion fails with "Failed to generate the export data." exactly when the index count is not a multiple of 3. Otherwise there is one exported vertex per input vertex, in order, each mapping back to its input under the inverse remap. There are indices/3 faces, and they flatten back to the index list |
| Exporter.SceneMeshOfInRange | Source/Exporter.cpp:58-69 | when every index names a vertex, every face corner of the exported mesh names an exported vertex |
| Exporter.GenerateScene | Source/Exporter.cpp:78-109 | the scene succeeds exactly when both index counts are multiples of 3. It has one material "Material" with color 0.5. It has exactly two meshes, "DFT" (terrain) first and "Base" second. The root node refers to [0, 1], and every reference resolves |
| Exporter.ParseOrientation | Source/Exporter.cpp:139-141 | "z-up" is exactly the z-up choice and "y-up" exactly the y-up choice; anything else is rejected |
| Exporter.ReplaceDots | Source/Exporter.cpp:118-119 | the name has the file name's length and contains no '.'; each '.' becomes '-' in place, and every other character stays in place |
| Exporter.ReplaceDotsIdempotent | Source/Exporter.cpp:118-119 | replacing periods again changes nothing; a name without periods is used as is |
| Exporter.ReplaceDotsCollides | Source/Exporter.cpp:118-119 | "a.b.flac" and "a-b.flac" export to the same name |
| Exporter.LastIndexOfAfter | Source/Exporter.cpp:122 | the period added before the format is the path's last period when the format has none |
| Exporter.ExportPath | Source/Exporter.cpp:118-122 | the output path: "Exports/", then the file name with its periods replaced, then ".", then the format |
| Exporter.SplitExportPathRoundTrip | Source/Exporter.cpp:118-122 | the output path "Exports/" + name + "." + format splits back into the period-free name and the format |
| Exporter.ExportModel | Source/Exporter.cpp:128-158 | an unsupported format (not ply, obj or stl) fails with "Unrecognized export format." before the orientation is looked at. A bad orientation then fails with the orientation message. After both pass, a generator failure comes back with the generator's own message, an index count that is not a multiple of 3 fails with the export-data message, and a writer failure fails with "Export failed.". Export succeeds exactly when both are valid, generation succeeds, both meshes have index counts that are multiples of 3, and the writer succeeds. On success, the path splits back into the file name with each '.' replaced by '-', and the format |
| Exporter.ArgumentsCheckedBeforeGeneration | Source/Exporter.cpp:134-147 | when the format or the orientation is refused, the result does not depend on the generator's or the writer's outcome |
| Console.RunExportLine | Source/Main.cpp:148-153 | an export line that the interpreter refuses reports the interpreter's error; an accepted line goes to the exporter with its file name, format and orientation |
| Console.NameCheckedBeforeFormat | Source/Main.cpp:150-152 | an export line whose name the pattern refuses reports the invalid-name error, whatever its format, orientation, generator outcome or writer outcome |
| Console.FormatCheckedAfterName | Source/Exporter.cpp:135-136 | an export line with an accepted name and a format outside ply, obj and stl reports "Unrecognized export format.", whatever its orientation |
| Decoder.Resize | Source/Decoder.cpp:197 | resizing keeps the first n elements and pads with zeros up to n |
| Decoder.Clamp | Source/Decoder.cpp:79-80 | a stored sample is in [-1, 1]; a sample already in range is stored unchanged; values above 1 become 1 and values below -1 become -1 |
| Decoder.ClampMonotoneIdempotent | Source/Decoder.cpp:79-80 | clamping preserves the order of samples, and clamping twice is the same as clamping once |
| Decoder.CountClippedPositions | Source/Decoder.cpp:79-80 | the clipped count equals the number of positions with an out-of-range sample, and is 0 exactly when every sample is in range |
| Decoder.CountClippedAppend | Source/Decoder.cpp:73-80 | the clipped counts of consecutive stretches add up |
| Decoder.ProcessFrame | Source/Decoder.cpp:72-84 | a frame appends exactly its clamped samples, in order, after the untouched earlier data; every appended sample is in [-1, 1]; the clipped count grows by the number of out-of-range samples; the peak is the frame's largest absolute value before clamping, or 0 for an empty frame |
| Decoder.LoadSamples | Source/Decoder.cpp:48-91 | after all frames, the data is the earlier data followed by every frame's clamped samples in order; the clipped count grows by the total out-of-range count; the peak is the last frame's, or unchanged when there are no frames |
| Decoder.Decode | Source/Decoder.cpp:196-206 | decoded data begins with one seed element: 0 when the buffer was empty, otherwise the old first element. Then come all clamped samples in order, each in [-1, 1] |

## Left out

- The generator's spectral and mesh engine (windowing, transform, smoothing, height mapping, triangulation). Its implementation is not part of this model; only its interface is visible. Its result is a parameter of `Exporter.ExportModel`.
- The viewer (`Source/Viewer.cpp`): OpenGL rendering, shadows, camera and light control.
- Console I/O and `platform_initialization`, the help and startup texts, and the splitting of a line into tokens. `Utilities::split` is not part of this model; a line arrives as its token list.
- Numeric parsing of the `configure` settings with `std::stof`, and its exceptions. The settings stay as raw tokens.
- The end of standard input. `std::getline` then yields an empty line over and over, and the real loop keeps reporting "No command entered." forever; `Commands.RunSession` simply stops at the end of its input.
- `Utilities::is_supported` is not part of this model; it is taken to be list membership.
- Commands.ValidateName: a name is a sequence of characters, one character per byte of the source's `std::string`. Multi-byte encodings are not modelled. For a UTF-8 name such as "aéwav", the source's unescaped `.` takes only the first byte of 'é' and refuses the name, while the model accepts it.
- Commands.Interpret: its outcome stops at dispatch. Running the command is not part of it, and neither are the errors that running raises (for example, "Unrecognized export format." for `export a.flac gif z-up`). For export lines, `Console.RunExportLine` continues into the exporter's checks.
- Commands.ValidateCommandParameters: `required` is a natural number. The source's `int` compared with a `size_t` only differs for negative values, and no caller passes one.
- Building the 3D-format library's scene objects, `std::filesystem::create_directory`, and the writer itself. The writer's success is a boolean parameter.
- Exporter.SceneMeshOf: does not model 32-bit `unsigned` arithmetic. That covers the `static_cast<unsigned>` truncation of vertex and face counts above 2^32 - 1. It also covers the wrap of the face loop's index arithmetic (`index*3`, `+1`, `+2`). For index lists of more than 2^32 + 1 entries, that wrap makes later faces read `indices[(3i+k) mod 2^32]`. The model reads `indices[3i+k]`, so its face and round-trip promises hold only for lists shorter than that.
- Coordinates and samples are reals. Single-precision rounding, NaN (which skips both clamp checks in the source) and negative zero are not modelled.
- The ffmpeg plumbing of the decoder: opening the file, reading stream information, codec and resampler setup, packet and frame loops, buffer allocation, and `destroy`. It also leaves out their errors (for example "Could not resample a frame."), which abort a decode partway through.
- Decoder.ProcessFrame: `clipped_samples` is a 64-bit counter. Its wrap-around after 2^64 samples is not modelled.
