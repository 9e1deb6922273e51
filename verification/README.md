# Chunked search-command protocol of `splunklib.searchcommands`, in Dafny

This project models the chunked protocol layer of the Splunk SDK for Python's
`splunklib.searchcommands` package. That layer is the code an external search
command uses to talk to splunkd over its standard input and output. The model
covers five parts, one Dafny module (or two) per part.

- **Multi-value codec** (`MultiValue`, `DecodeListPerformance`). This is the
  `$…$;$…$` escaping of multi-valued fields.
  - The decoder `_decode_list` is modelled as a method with its `while` loop,
    proved equal to a tail-recursive specification function. The stand-alone
    copy in `_decode_list_1_performance.py` gets the same treatment.
  - The escaping grammar is defined on its own, and the decoder is proved to
    invert it.
  - The encoders `_encode_list` and `RecordWriter._encode_value` are modelled
    as functions, as written: a list of two or more items gets the list cell
    `$$`. The intended encoding is proved beside them.
- **Transport framing** (`Framing`). Input and output streams are classes.
  - `_read_chunk` reads the header line `chunked 1.0,<m>,<b>\n` and then two
    length-prefixed segments.
  - `_write_chunk` writes that header from the actual segment lengths.
  - The header pattern is a hand-written scanner equivalent to the source's
    regular expression.
- **Records and the record writer** (`Csv`, `Records`, `RecordWriting`,
  `Metadata`).
  - `Csv` holds the row writer of `CsvDialect` and a reader for the rows it
    writes.
  - `Records` models `_records`.
  - `RecordWriting` models `RecordWriter` as a class: a header row on the first
    record after each clear, a partial flush at `maxresultrows`, an inspector
    map, and `_clear`. Its `cStringIO` buffer is a value with a write position,
    which `_clear` rewinds without emptying the buffer.
  - `RecordWriting` also models `ObjectView` nesting.
- **Handshake, options, settings and the execution loop** (`Options`,
  `Settings`, `SearchCommands`, `Streaming`).
  - `Options` models the `Configuration` decorator and
    `ConfigurationSetting.fix_up`, each as written and as evidently intended.
    It also models the option state of `Option.Item`/`Option.View`, as a class
    with `values` and `isSet` fields.
  - `Settings` models the configuration settings of the base, streaming and
    reporting commands: defaults, validating setters, `iteritems` and `fix_up`.
  - `SearchCommands` models the `getInfo` exchange of `SearchCommand.process`
    as a class whose methods mirror the source's steps. It is proved against a
    specification function of the whole run.
  - `Streaming` models `StreamingCommand._execute` as a `while` loop, proved
    against a recursive description of its output. The loop reads
    `self.finished` and calls `self._encode_value`. The base classes define
    neither, so whether the command has them is a parameter. Without them
    the loop faults.
- **Windows executable lookup** (`External`).
  - `ExternalSearchCommand` is a class with its three validating setters and
    `execute`.
  - `_search_path` is a set of methods with early-returning loops, proved
    against functions. `os.path.isfile` is a parameter.

The operations follow the code as written, except for the members named
under "## Left out". This includes these behaviours:

- `_write_message` never increments `_message_count`. The exit gate after
  argument processing therefore never fires, and a second error overwrites the
  first under `message.0.ERROR` (`SearchCommands.MessagesOverwrite`,
  `SearchCommands.FaultsExit`).
- The multi-value branch of `_records` zips the header with an empty record.
  Every row therefore yields an empty record, and a bare `__mv_` column raises
  `IndexError` (`Records.Records`).
- `RecordWriter.write_message` appends to a throw-away list when the inspector
  has no `messages` entry (`RecordWriting.RecordWriter.WriteMessage`).
- `_write_chunk` of `SearchCommand` writes the header and then `None` when the
  metadata is falsy. That write raises `TypeError`, so a command whose
  `finished` is false ends the run at its first chunk
  (`Streaming.UnfinishedChunkFaults`).
- A command without a `finished` attribute, as `StreamingCommand` itself is,
  faults with `AttributeError` on every chunk it reads and writes nothing of
  it (`Streaming.MissingFinishedFaults`,
  `SearchCommands.ReturnedWithoutFinished`).
- `_clear` only rewinds the buffer. A shorter chunk therefore carries the
  tail of the previous one, and `flush(finished=True)` after a partial flush
  sends the previous chunk again (`RecordWriting.RowsAfterClear`,
  `RecordWriting.FinishedFlushAfterClear`).
- A truncated input segment is returned short, not reported as an error
  (`Framing.InputStream.Read`).
- The fault handler records the literal template
  `%s at "%s", line %d : %s`, because `str.format` does not substitute `%s`
  (`SearchCommands.FaultsExit`).

The places where the code evidently does not do what was intended are listed
under "## Findings". For each one the as-written behaviour is exhibited, and
a corrected definition is proved to have the intended property.

Collaborators the core cannot see are parameters:

- the JSON serialiser and parser (`dumps`, `parse`);
- `csv.reader` (`parseCsv`);
- the command's `stream`, and whether it has `finished` and `_encode_value`;
- the specification matrix and validators of configuration settings, which
  only the intended fix-up uses;
- the class name in the error line of `ExternalSearchCommand.execute`;
- `str.format` and `repr`;
- the option encoder;
- `os.path.isfile`;
- process launching (`launch`).

## Model

| member | source | states |
|---|---|---|
| MultiValue.DecodeList | splunklib/searchcommands/search_command.py:448-473 | The character loop (outside a value `;` is skipped, `$` opens, anything else gives None; inside, `$$` is one `$`, a lone `$` closes) returns exactly the specification `Decode`, and None for empty input |
| DecodeListPerformance.DecodeList | _decode_list_1_performance.py:4-28 | The stand-alone copy returns the same result as `SearchCommand._decode_list` for every input, and None for empty input |
| MultiValue.DecodeInvertsGrammar | splunklib/searchcommands/search_command.py:448-473 | For every non-empty list, decoding `'$' + '$;$'.join(escaped items) + '$'` gives back exactly that list |
| MultiValue.DecodeDropsUnterminatedTail | splunklib/searchcommands/search_command.py:449-473 | A final value that is opened but never closed is silently dropped; only the closed values are returned, in order |
| MultiValue.DecodeRejectsStrayCharacter | splunklib/searchcommands/search_command.py:457-461 | A character other than `$` or `;` outside a value makes the whole decode None, whatever follows |
| MultiValue.DecodeSeparatorsOnly | splunklib/searchcommands/search_command.py:456-461 | Outside a value `;` is skipped: once only `;` remain, the decode ends with exactly the values closed so far |
| MultiValue.EncodeListRoundTrip | splunklib/searchcommands/search_command.py:476-495 | `_encode_list`: `[]` gives `(None, None)` and `[x]` gives `(to_string(x), None)`. Two or more items give the newline-joined texts, which split back into the item texts (`t`/`f` for booleans) when none holds a newline. The list cell is `$$`, which decodes to `['']` whatever the items |
| MultiValue.EncodeValueRoundTrip | splunklib/searchcommands/internals.py:270-291 | `_encode_value`: a scalar gives `(to_string(v), None)`, `[]` gives `(None, None)` and `[x]` gives `(to_string(x), None)`. Longer lists give the newline-joined texts, which split back into the texts when none holds a newline, and the list cell `$$`, which decodes to `['']` |
| MultiValue.IntendedCellsRoundTrip | splunklib/searchcommands/search_command.py:493-495 | Corrected encoding, with the items rendered once per join: the list cell decodes to the texts, and the first cell splits back into the texts at newlines when no text holds a newline |
| MultiValue.ListCellsAsWritten | splunklib/searchcommands/search_command.py:493-495 | As written, the second join sees an exhausted `imap`: for two or more items the first cell is right but the list cell is `$$`, which decodes to `['']`; for fewer items the code is correct |
| MultiValue.ListCellsExample | splunklib/searchcommands/internals.py:290-291 | `['a','b']` gives list cell `$$` as written instead of `$a$;$b$`, and the two decode to `['']` and `['a','b']` |
| Framing.InputStream.ReadLine | splunklib/searchcommands/search_command.py:547 | `readline` returns the text up to and including the next newline, or the rest of the input, and advances past it |
| Framing.InputStream.Read | splunklib/searchcommands/search_command.py:569-570 | `read(n)` returns the next `n` characters, or fewer at the end of the input, without error, and advances past them |
| Framing.OutputStream.Write | splunklib/searchcommands/search_command.py:588-590 | `write(s)` appends `s` to what the stream holds |
| Framing.NextChunk | splunklib/searchcommands/search_command.py:544-581 | Reading never moves backwards, and a chunk that is read always consumes input |
| Framing.ReadChunk | splunklib/searchcommands/search_command.py:544-581 | `_read_chunk` returns the chunk and leaves the stream where the specification `NextChunk` says: header, then metadata length, then body length, in that order |
| Framing.NextChunkRefusals | splunklib/searchcommands/search_command.py:547-557 | At the end of input nothing is read and the position stays put; a header line the pattern refuses gives None |
| Framing.HeaderMatches | splunklib/searchcommands/search_command.py:554-564 | The header `chunked 1.0,%d,%d\n` that `_write_chunk` writes is accepted by the reader's pattern and yields the same two lengths |
| Framing.HeaderIsOneLine | splunklib/searchcommands/search_command.py:547 | A written header is read by `readline` as exactly one line, whatever follows it |
| Framing.ReadWhatWasWritten | splunklib/searchcommands/search_command.py:544-591 | A chunk written as header, metadata and body is read back as the parsed metadata and the same body, and consumes exactly the written text; unparseable metadata gives None |
| Framing.WriteChunk | splunklib/searchcommands/search_command.py:583-591 | Truthy metadata writes the header with the actual lengths, the serialised metadata and the body; falsy metadata writes a header with length 0 and then fails with `TypeError` on writing None |
| Csv.FieldRoundTrip | splunklib/searchcommands/internals.py:179-186 | A field written with minimal quoting and doubled quotes is read back as the same text, up to the next separator |
| Csv.RowRoundTrip | splunklib/searchcommands/internals.py:179-186 | Every row the dialect's writer emits (`,` separator, `"` quoting, `\r\n` terminator) reads back as its cell texts, None cells as empty |
| Metadata.DropNone | splunklib/searchcommands/internals.py:296-297 | The filtered metadata holds no None value and only keys of the input. Every key whose value is not None keeps that value |
| Metadata.DropNoneSubsequence | splunklib/searchcommands/internals.py:296-297 | The filtered metadata is the input read at increasing positions. Those positions are exactly the entries whose value is not None, so it holds the non-None entries in their order |
| Records.Records | splunklib/searchcommands/search_command.py:511-542 | No rows gives no records; without `__mv_` columns each row after the header becomes the header zipped with the row; with `__mv_` columns each row gives an empty record; a bare `__mv_` column raises `IndexError` |
| Records.ZipFields | splunklib/searchcommands/search_command.py:537-540 | With distinct header names, the record has the header's names in order, each mapped to its row value, up to the shorter of the two |
| RecordWriting.ResetKeepsStaleTail | splunklib/searchcommands/internals.py:263-264 | As written, `reset()` only rewinds: writing a shorter text afterwards leaves the tail of the old contents in `getvalue()` |
| RecordWriting.StaleTailExample | splunklib/searchcommands/internals.py:263-264 | Writing `aaaa,bbb\r\n`, resetting and writing `c,d\r\n` leaves `c,d\r\nbbb\r\n` in the buffer |
| RecordWriting.TruncateThenWrite | splunklib/searchcommands/internals.py:263-267 | Corrected clear: a buffer truncated on clear holds exactly what is written to it afterwards |
| RecordWriting.WriteTwice | splunklib/searchcommands/internals.py:253-258 | Writing two texts one after the other at the buffer's position leaves the same buffer as writing them together |
| RecordWriting.RowsAfterClear | splunklib/searchcommands/internals.py:253-264 | After a clear, the first record's header and data rows go to the start of the rewound buffer. They are followed by whatever the previous contents held past their length |
| RecordWriting.FinishedFlushAfterClear | splunklib/searchcommands/internals.py:227-238 | After a clear, `flush(finished=True)` is not skipped although the position is 0, and it sends the whole previous contents. `flush(finished=False)` with an empty inspector is skipped |
| RecordWriting.HeaderCellsAt | splunklib/searchcommands/internals.py:254-256 | The header row is each key followed by `'__mv_' + key`, in record order |
| RecordWriting.ValueCellsAt | splunklib/searchcommands/internals.py:257-258 | The data row is the two cells of `_encode_value` of each value, in record order. For lists of two or more items these are the joined texts and `$$` |
| RecordWriting.FlushMetadataFiltered | splunklib/searchcommands/internals.py:232-235 | The flushed metadata holds the inspector only when it is non-empty, and `finished`/`partial` only when given, in that order |
| RecordWriting.WriteInspectorChunk | splunklib/searchcommands/internals.py:293-309 | `_write_chunk` drops None entries, writes a header with the actual lengths, and writes nothing when metadata and body are both empty |
| RecordWriting.RecordWriter.constructor | splunklib/searchcommands/internals.py:218-225 | A new writer has no field names, an empty inspector, a zero record count and an empty buffer |
| RecordWriting.RecordWriter.Clear | splunklib/searchcommands/internals.py:263-267 | `_clear` rewinds the buffer to position 0 and keeps its contents. It resets field names, inspector and record count |
| RecordWriting.RecordWriter.Flush | splunklib/searchcommands/internals.py:227-238 | At position 0, with an empty inspector and `finished is False`, nothing changes. Otherwise exactly one chunk of the filtered metadata and the buffer's whole contents, stale tail included, is written, and the writer is cleared |
| RecordWriting.RecordWriter.WriteRecord | splunklib/searchcommands/internals.py:253-261 | Writes the header row at the buffer's position when no field names are captured, then one row of two cells per key, and counts the record. On reaching `maxresultrows` it flushes the buffer's whole contents with `partial=True` and clears |
| RecordWriting.FirstRecordRows | splunklib/searchcommands/internals.py:253-258 | In a new writer's empty buffer, the first record's header row and data row are the whole buffer, and each reads back as its cells |
| RecordWriting.RecordWriter.WriteMetric | splunklib/searchcommands/internals.py:250-251 | Sets `metric.<name>` in the inspector and leaves buffer, record count and field names unchanged |
| RecordWriting.RecordWriter.WriteMessage | splunklib/searchcommands/internals.py:240-241 | Appends `[type, text]` to an existing `messages` list; when there is none the append goes to a throw-away list and the inspector is unchanged; a formatting error propagates |
| RecordWriting.RecordWriter.WriteMetadata | splunklib/searchcommands/internals.py:243-248 | Writes one chunk of the rendered configuration plus the inspector (None when empty), then a newline, then clears, rewinding the buffer |
| RecordWriting.ViewFaithful | splunklib/searchcommands/internals.py:201-213 | After the view is built, no dict nested directly in a dict (at any level of such nesting) is left unwrapped, while a dict inside a list stays plain; the original values can be recovered unchanged, and a view keeps its members' names in order |
| Options.CommandNameDropsOneSuffix | splunklib/searchcommands/decorators.py:66-70 | A class name ending in `Command` loses exactly that one suffix and is lower-cased |
| Options.CommandNameWithoutSuffix | splunklib/searchcommands/decorators.py:66-70 | Any other class name is only lower-cased, keeping its length |
| Options.Decorate | splunklib/searchcommands/decorators.py:58-82 | As written, only a function succeeds, keeping the settings for later. A class always raises `TypeError` at the metaclass call, which lacks its `settings` argument. Anything else raises `TypeError`, or `AttributeError` when it has no `__name__` |
| Options.DecorateIntended | splunklib/searchcommands/decorators.py:58-82 | As intended, a class gets its derived name and is configured exactly when its settings fix up. Functions and other objects behave as written |
| Options.DecorateClassFails | splunklib/searchcommands/decorators.py:72-75 | As written a class is never configured. As intended it is configured whenever its settings fix up, for example a class with no settings given no values. The two agree on everything else |
| Options.FixUpAsWrittenFails | splunklib/searchcommands/decorators.py:115-187 | As written, `fix_up` raises `AttributeError` at the first declared setting, because the specification matrix it reads does not exist. With no declared setting it succeeds exactly when no value is supplied |
| Options.ReadonlySettingExample | splunklib/searchcommands/decorators.py:104-144 | A read-only setting given by value gets a setter as written, because the getter copy's `_readonly` is None. The intended rule refuses a value supplied for it as fixed |
| Options.SortByKeySorted | splunklib/searchcommands/decorators.py:172 | The leftover settings are listed sorted by name and are a permutation of them |
| Options.FixUpSettings | splunklib/searchcommands/decorators.py:115-176 | Intended fix-up: the loop over the setting definitions returns what the specification `FixUpFrom` returns |
| Options.FixUpOutcome | splunklib/searchcommands/decorators.py:160-174 | Intended fix-up, when every setting is known and every validation succeeds: a value given for a setting without a setter raises `ValueError`. Otherwise the fix-up fails exactly when some values are unclaimed, with `AttributeError` listing them sorted |
| Options.OptionView.constructor | splunklib/searchcommands/decorators.py:330-333 | Every item starts unset |
| Options.OptionView.IndexOf | splunklib/searchcommands/decorators.py:388-392 | The lookup by name finds an item with that name, and finds none exactly when no item has it |
| Options.OptionView.SetValue | splunklib/searchcommands/decorators.py:298-301 | Assigning stores the validator's conversion (or the value when there is no validator) and marks the item set; a conversion error leaves the item unchanged |
| Options.OptionView.ResetItem | splunklib/searchcommands/decorators.py:374-376 | `reset` stores the default through the setter and marks the item unset |
| Options.OptionView.Reset | splunklib/searchcommands/decorators.py:423-425 | Resets items in order; a default the validator refuses stops the loop with that fault, the items before it reset and the items after it unchanged |
| Options.MissingNames | splunklib/searchcommands/decorators.py:410-412 | `get_missing` is None exactly when every required item is set; otherwise it lists the names of the required, unset items in the order the items are given (sorted by name in the source) |
| Options.OptionView.Text | splunklib/searchcommands/decorators.py:404-406 | `str(view)` joins the texts of the set items only, in order, with single spaces, and is empty exactly when no item is set |
| Settings.ConfigurationSettings.constructor | splunklib/searchcommands/search_command.py:605-607 | A new settings object holds only `_finished = False` |
| Settings.ConfigurationSettings.Set | splunklib/searchcommands/search_command.py:634-692 | As written, a setter stores the value it accepts (the `partial` setter into `_stderr_dest`) and changes nothing when it refuses. A read-only setting raises `AttributeError` |
| Settings.SetThenGet | splunklib/searchcommands/streaming_command.py:129-208 | With the corrected `partial` setter, a writable setting (finished, partial, stderr_dest, distributed, generating, maxinputs, required_fields, run_in_preview) accepts exactly the values its validator accepts and then reads back as the assigned value, with every other setting unchanged |
| Settings.PartialSetterAsWritten | splunklib/searchcommands/search_command.py:662-666 | As written, a boolean assigned to `partial` leaves `partial` unchanged and stores the boolean as `stderr_dest`, a value that setter would refuse; every other setting behaves as in the corrected setter |
| Settings.PartialSetterExample | splunklib/searchcommands/search_command.py:662-666 | Setting `partial = True` reads back `False` as written and `True` with the corrected setter |
| Settings.RequiresPreopReadsClass | splunklib/searchcommands/reporting_command.py:89-107 | `requires_preop` accepts None or a boolean, and its getter keeps reading the class attribute afterwards |
| Settings.TypeIsFixed | splunklib/searchcommands/streaming_command.py:210-217 | `type` cannot be assigned and is always `streaming` (or `reporting` for a reporting command) |
| Settings.StreamingDefaults | splunklib/searchcommands/streaming_command.py:129-217 | Defaults: `distributed=False`, `generating=False`, `maxinputs=None`, `required_fields=None`, `run_in_preview=None`, `finished=False`, `partial=False`, `stderr_dest='log'`, `type='streaming'` |
| Settings.ReportingDefaults | splunklib/searchcommands/reporting_command.py:89-154 | Defaults: `requires_preop=False`, `run_in_preview=None`, `streaming_preop` as computed, `type='reporting'`, and the base command's defaults |
| Settings.StreamingPreopOfCommandLine | splunklib/searchcommands/reporting_command.py:128-145 | `streaming_preop` is `""` when `map` is not overridden, else the name, `__map__`, and the command line after the name |
| Settings.ItemsOf | splunklib/searchcommands/search_command.py:700-709 | `iteritems` yields one `(name, value)` per key, in key order, and fails exactly when some getter fails |
| Settings.ItemsComplete | splunklib/searchcommands/search_command.py:700-709 | With the class defaults in place, every setting of the command can be read, and the items are named in the order the keys are given (sorted by name in the source) |
| Settings.StreamingFixUp | splunklib/searchcommands/streaming_command.py:223-230 | The class fix-up succeeds exactly when `stream` is overridden, else raises `AttributeError` |
| Settings.ReportingFixUp | splunklib/searchcommands/reporting_command.py:160-208 | Non-reporting classes raise `TypeError` and a missing `reduce` raises `AttributeError`; without `map`, `requires_preop` becomes False; with `map`, the map phase gets streaming settings or its own configured ones |
| Streaming.OutputBody | splunklib/searchcommands/streaming_command.py:104-113 | A chunk's body is empty exactly when nothing is yielded, and otherwise is the first record's header row followed by one row per record |
| Streaming.OutputMetadata | splunklib/searchcommands/streaming_command.py:117 | The output metadata is truthy exactly when the command is finished |
| Streaming.WriteRows | splunklib/searchcommands/streaming_command.py:99-114 | The record loop over a fresh buffer produces exactly the chunk body. Without `_encode_value` it fails with `AttributeError` exactly when some record has a field |
| Streaming.BodyRowsReadBack | splunklib/searchcommands/streaming_command.py:105-113 | The header row is written once, before the data rows, from the first record, and every row reads back as its cells |
| Streaming.ProcessChunk | splunklib/searchcommands/streaming_command.py:95-118 | One pass writes exactly the output of one input chunk and reports whether processing goes on. Nothing is written when the records cannot be built, when `_encode_value` is missing and a record has a field, or when `finished` is missing |
| Streaming.ExecuteStep | splunklib/searchcommands/streaming_command.py:89-118 | One pass either stops (no chunk, or a fault) with its output being the rest of the run, or advances the input and leaves the remaining run to the loop |
| Streaming.Execute | splunklib/searchcommands/streaming_command.py:77-119 | The loop appends to the output exactly the specification run from the input position, and ends with its outcome |
| Streaming.StopsWhenReadFails | splunklib/searchcommands/streaming_command.py:89-93 | The loop stops, writing nothing, at the end of input or at a header the pattern refuses |
| Streaming.FinishedChunkReadsBack | splunklib/searchcommands/streaming_command.py:99-118 | For a command whose `finished` is true and which has `_encode_value`, each input chunk yields exactly one output chunk, which reads back as `{'finished': True}` and the rows of that chunk's records only |
| Streaming.MissingFinishedFaults | splunklib/searchcommands/streaming_command.py:99-118 | A command without a `finished` attribute, as the base classes are, faults on every chunk and writes nothing of it, with `AttributeError` once its records are built |
| Streaming.MissingEncoderFaults | splunklib/searchcommands/streaming_command.py:105-113 | Without `_encode_value`, a chunk whose yielded records include one with a field fails with `AttributeError` and writes nothing |
| Streaming.MissingFinishedWritesNothing | splunklib/searchcommands/streaming_command.py:88-118 | Without `finished` the loop writes nothing, and it ends without a fault only when there is no chunk to read |
| Streaming.UnfinishedChunkFaults | splunklib/searchcommands/streaming_command.py:117-118 | For a command whose `finished` is false and which has `_encode_value`, the first chunk writes only a header with an empty metadata segment and then fails with `TypeError` |
| External.ExternalSearchCommand.constructor | splunklib/searchcommands/external_search_command.py:31-34 | No path, no argv, and the process environment |
| External.ExternalSearchCommand.SetArgv | splunklib/searchcommands/external_search_command.py:42-46 | Accepts None, a list or a tuple and stores it; anything else raises `ValueError` and changes nothing |
| External.ExternalSearchCommand.SetEnviron | splunklib/searchcommands/external_search_command.py:52-56 | Accepts only a dict; anything else raises `ValueError` and changes nothing |
| External.ExternalSearchCommand.SetPath | splunklib/searchcommands/external_search_command.py:62-66 | Accepts only a string; anything else raises `ValueError` and changes nothing |
| External.ExternalSearchCommand.Execute | splunklib/searchcommands/external_search_command.py:72-82 | Assigns the non-None arguments through the setters in order and launches. Any failure is reported as one `execution error` line on stderr, naming the instance's class, instead of being raised |
| External.NoneArgumentsKeepFields | splunklib/searchcommands/external_search_command.py:72-79 | A None argument leaves its field unchanged |
| External.AcceptedArgumentsStored | splunklib/searchcommands/external_search_command.py:72-79 | Acceptable arguments succeed and overwrite exactly the fields whose argument is not None |
| External.RejectedArgumentStops | splunklib/searchcommands/external_search_command.py:72-79 | The first refused argument stops the assignments after it, and every failure is a `ValueError` |
| External.ErrorLine | splunklib/searchcommands/external_search_command.py:81-82 | The error report names the class, says `execution error: ` and ends the line |
| External.SearchPath | splunklib/searchcommands/external_search_command.py:113-150 | The lookup returns what the specification `SearchPathResult` returns |
| External.TryExtensions | splunklib/searchcommands/external_search_command.py:122-126 | Tries `.COM` then `.EXE` and returns the first that is a file |
| External.SearchDirectories | splunklib/searchcommands/external_search_command.py:136-141 | Returns the first directory joined with the executable that is a file, else the executable |
| External.SearchDirectoriesAndExtensions | splunklib/searchcommands/external_search_command.py:143-150 | Returns the first file over directories in order and, within each, `.COM` before `.EXE`, else the executable |
| External.SearchEntries | splunklib/searchcommands/external_search_command.py:132-150 | With no directory entries it returns the executable; otherwise it searches as the extension requires |
| External.CandidateAt | splunklib/searchcommands/external_search_command.py:143-148 | Candidate `2i+x` is directory `i` joined with the executable plus extension `x`: directories outermost, extensions innermost |
| External.SearchWithDirectory | splunklib/searchcommands/external_search_command.py:115-126 | With a directory and a `.COM`/`.EXE` extension (case-insensitive) the executable is returned unchanged; otherwise the first of executable+`.COM`, executable+`.EXE` that is a file, else the executable |
| External.EmptyPathNoSearch | splunklib/searchcommands/external_search_command.py:128-134 | Without a directory, an absent or empty `Path`, or one whose `;`-entries are all empty, returns the executable unchanged |
| External.SearchKnownExtension | splunklib/searchcommands/external_search_command.py:136-141 | With a known extension, the result is the first directory joined with the executable that is a file, else the executable |
| External.SearchAlongPath | splunklib/searchcommands/external_search_command.py:143-150 | Otherwise the result is the first file among the candidates in order, no earlier candidate being a file, else the executable when none is |
| External.LastSegment | splunklib/searchcommands/external_search_command.py:115 | The file name is the longest suffix without a separator, preceded by a separator when it is not the whole path |
| External.Extension | splunklib/searchcommands/external_search_command.py:116 | The extension is empty or a suffix of the file name starting at its last dot |
| SearchCommands.ConvertField | splunklib/searchcommands/search_command.py:213-214 | An empty name raises `IndexError`; otherwise one leading `_` is dropped and every `.` becomes `_`, nothing else changing |
| SearchCommands.CommandLineSplits | splunklib/searchcommands/search_command.py:87-90 | `str(command)` is the non-empty parts among name, options and field names, separated by single spaces, so splitting it at spaces gives them back |
| SearchCommands.SplitFirst | splunklib/searchcommands/search_command.py:321 | `split('=', 1)` gives the token itself when it has no `=`, else the parts before and after the first `=` |
| SearchCommands.MessageStep | splunklib/searchcommands/search_command.py:593-595 | `_write_message` sets `message.<count>.<type>` to the formatted text and changes no other key; a formatting error propagates |
| SearchCommands.MessagesOverwrite | splunklib/searchcommands/search_command.py:593-595 | With the count unchanged, a second message of the same type overwrites the first under the same key |
| SearchCommands.SearchCommand.WriteMessage | splunklib/searchcommands/search_command.py:405-422 | `write_error` and the other writers store the message under the current count, which does not change |
| SearchCommands.SearchCommand.WriteMetric | splunklib/searchcommands/search_command.py:424-444 | Sets `metric.<name>` in the inspector and nothing else |
| SearchCommands.ArgTokens | splunklib/searchcommands/search_command.py:319 | The `args` list of the metadata is the token list |
| SearchCommands.ArgsCollectFieldNames | splunklib/searchcommands/search_command.py:319-323 | When argument processing completes, the tokens without `=` were appended to the field names, in argument order |
| SearchCommands.UnknownOptionReported | splunklib/searchcommands/search_command.py:326-330 | An unknown option name records `Unrecognized option` and processing goes on, with field names and options unchanged |
| SearchCommands.IllegalValueReported | splunklib/searchcommands/search_command.py:331-335 | A value the option's validator refuses records `Illegal value` with the option's text and processing goes on, the option unchanged |
| SearchCommands.MissingMessage | splunklib/searchcommands/search_command.py:339-345 | One missing option gives the singular message; several give the plural message listing them |
| SearchCommands.ConfigurationMetadata | splunklib/searchcommands/search_command.py:358 | The configuration chunk's metadata is never falsy, so the chunk is always written with its metadata |
| SearchCommands.Negotiation | splunklib/searchcommands/search_command.py:314-351 | The handshake keeps the option state well formed, leaves the message count as it was, and on success stores the metadata that was read |
| SearchCommands.ConclusionUnconfigured | splunklib/searchcommands/search_command.py:358 | When the settings cannot be read, the run goes to the fault handler without writing anything |
| SearchCommands.ConclusionConfigured | splunklib/searchcommands/search_command.py:358-363 | Otherwise exactly one configuration chunk and a newline are written, the inspector is cleared, and then `_execute` runs; its fault, such as the `AttributeError` of a command without `finished`, goes to the handler |
| SearchCommands.ConclusionReturned | splunklib/searchcommands/search_command.py:358-363 | A run that returns wrote the configuration chunk and the output of an execution that ended without a fault, and ends with an empty inspector |
| SearchCommands.ReturnedWritesOneConfigurationChunk | splunklib/searchcommands/search_command.py:314-363 | A `process` that returns read one chunk, reset the count to 0 and stored its metadata. Its execution ended without a fault, and it wrote exactly one configuration chunk, a newline and the execution output, leaving the inspector empty |
| SearchCommands.ReturnedWithoutFinished | splunklib/searchcommands/search_command.py:355-363 | A streaming command without a `finished` attribute returns only when no chunk follows the handshake. It has then written the configuration chunk and a newline and nothing else |
| SearchCommands.FaultsExit | splunklib/searchcommands/search_command.py:370-389 | `process` either returns or exits with status 1, and on exit the error message is recorded under the current count |
| SearchCommands.UnreadableHandshake | splunklib/searchcommands/search_command.py:314 | With nothing to read, unpacking the missing chunk fails, nothing is written, and the command exits with status 1 |
| SearchCommands.SearchCommand.constructor | splunklib/searchcommands/search_command.py:69-82 | A new command has an empty inspector, no message count and no metadata |
| SearchCommands.SearchCommand.ProcessArg | splunklib/searchcommands/search_command.py:320-336 | One argument updates the command exactly as the specification `ArgStep` says |
| SearchCommands.SearchCommand.ProcessArgs | splunklib/searchcommands/search_command.py:319-337 | The argument loop updates the command exactly as the specification `ArgsFrom` says |
| SearchCommands.SearchCommand.ReportMissing | splunklib/searchcommands/search_command.py:339-345 | The missing-options check updates the command as the specification `MissingPhase` says |
| SearchCommands.SearchCommand.ShowConfiguration | splunklib/searchcommands/search_command.py:355-356 | With `show_configuration` an info message lists the settings, as the specification `ShowPhase` says |
| SearchCommands.SearchCommand.WriteConfiguration | splunklib/searchcommands/search_command.py:358-361 | Writes one configuration chunk of the settings and the inspector, then a newline, and clears the inspector; unreadable settings fail with nothing written |
| SearchCommands.SearchCommand.HandleFault | splunklib/searchcommands/search_command.py:370-389 | The handler records the error and exits with status 1, or raises when the message cannot be formatted |
| SearchCommands.SearchCommand.Negotiate | splunklib/searchcommands/search_command.py:314-351 | The `getInfo` read, reset and argument phases change the command as the specification `Negotiation` says |
| SearchCommands.SearchCommand.Conclude | splunklib/searchcommands/search_command.py:355-389 | The configuration and execution phases, with the fault handler, write and end as the specification `Conclusion` says |
| SearchCommands.SearchCommand.Process | splunklib/searchcommands/search_command.py:295-391 | `process` writes exactly the specification run's output, ends as it ends and leaves the command in its final state |

## Left out

- JSON text: `json.loads`/`json.dumps` are parameters. Their round trip is a hypothesis where it is needed (`Streaming.FinishedChunkReadsBack`).
- `csv.reader` in `_records` and `_execute` is the parameter `parseCsv`. `Csv.ParseRecord` reads back only the rows the writer emits.
- Logging, `configure_logging`, `get_app_root`, `globals.py`, the `logging_configuration`/`logging_level` options and the `print(…, file=sys.stderr)` diagnostics of `_read_chunk`: these are I/O with no effect on the protocol.
- `search_results_info` and `service`: they read files, build a REST service and convert floats. Only `convert_field` is modelled.
- The traceback walk of the fault handler: this is interpreter introspection. The recorded message is the literal template the code formats.
- The `ConfigurationSettingsType` metaclass, `getmembers`, `Option.fix_up` and `configuration_settings`: this is runtime class construction. Option and setting definitions are given as sequences, in the order given (`getmembers` sorts them by name in the source).
- The class's own `ConfigurationSettings.fix_up` call inside `Configuration.__call__`: it is modelled separately by `Settings.StreamingFixUp` and `Settings.ReportingFixUp`, not chained into `Options.DecorateIntended`. As written, `Options.Decorate` fails before reaching it.
- `_execute` of the generating, eventing and reporting commands: they loop forever or use names the classes do not define. The streaming `_execute` also uses two such names, `finished` and `_encode_value`. It is modelled with them as parameters, and their absence in the base classes is modelled as the `AttributeError` it raises (`Streaming.MissingFinishedFaults`, `Streaming.MissingEncoderFaults`).
- Options.Decorate: the `name` attribute that `__call__` assigns to a class just before the `TypeError` is not part of the result.
- Process launching (`ExternalSearchCommand._execute`, `Popen`, signals, `os.execvpe`): this is the parameter `launch`.
- `_decode_list_3_performance.py`: its meaning is that of a regular-expression library call.
- `prepare()` and user overrides of `stream`: the first does nothing in the base class; the second is the parameter `stream`.
- `ofile.flush()`: it has no effect on the text written.
- `str.format`, `repr`, the option encoder and `to_string` of arbitrary objects: these are parameters or opaque text.
- Non-ASCII case mapping: `str.lower`/`upper` are modelled on ASCII letters.
- Text encoding: strings are modelled as sequences of characters that are never refused, and the header lengths of `_write_chunk` count those characters as bytes. Under `unicode_literals`, `unicode(item)`, the `'$' + …` and `'\n'.join(…)` of the encoders and `replace` in `_decode_list` raise `UnicodeDecodeError` on a byte string holding non-ASCII bytes, and the Python 2 `csv` writer raises `UnicodeEncodeError` on non-ASCII text. Those faults (which the handler would report before the process exits) are not modelled; MultiValue.EncodeList, MultiValue.EncodeValue, MultiValue.DecodeList, Csv.FormatRow and Framing.WriteChunk behave as for ASCII text.
- External.SearchPath: `Path` is looked up in the given environment exactly. When no environment is assigned, the source keeps the constructor's default `os.environ`, which on Windows matches keys case-insensitively, so an entry named `PATH` is found there; the model does not find it and returns the executable unsearched. External.ExternalSearchCommand.Execute inherits this difference.
- Floating-point values: these are not modelled.
- UNC paths in `os.path.split`: only drive letters and `/`/`\` separators are modelled.
- Generator laziness: `_records` and `stream` produce whole sequences, so an exception raised part-way through a chunk's records is not modelled. In particular, when a command without `_encode_value` yields a record with a field before the bad row is read, the source raises `AttributeError`; the model reports the record error.
- `ObjectView`: it is modelled on values (`ViewValue`), so the in-place rewriting of the parent dictionaries and their aliasing is not captured.
- The test-only expectations (`_chunk_count`, `_total_record_count`, a `RuntimeError` after `flush(finished=True)`, plain field-name lists) are not behaviour of this code.
- The order of the dictionary literal in `RecordWriter.flush` is taken as `inspector`, `finished`, `partial`; Python 2 dict order is unspecified.
- SearchCommands.SearchCommand.constructor: field names start as `[]` rather than None, since `process` sets them to `[]` before any use.
- SearchCommands.ConfigurationItems: the command handled by `SearchCommands.SearchCommand` is a streaming command, so its configuration chunk lists the streaming settings; other command types differ only in which settings are listed.
- SearchCommands.ShowPhase: a command class without a `show_configuration` option is treated as not showing its configuration.
- SearchCommands.Negotiation: its own contract is weaker than the run it describes; the whole-run properties are stated by `SearchCommands.ReturnedWritesOneConfigurationChunk`, `SearchCommands.FaultsExit` and `SearchCommands.UnreadableHandshake`.
- Options.FixUpSettings: models `fix_up` as evidently intended. As written, `_get_specification` reads a specification matrix that is never defined, so the loop raises `AttributeError` at its first setting (`Options.FixUpAsWrittenFails`). Also as written, the getter copy drops `readonly`, so every setting given by value gets a setter (`Options.ReadonlySettingExample`).
- Options.FixUpOutcome: states the intended fix-up (see the line above). It holds only when every setting is known to the matrix and every validation succeeds; the failing lookups and validations are modelled by `Options.FixUpFrom` but not characterised.
- Settings.ConfigurationSettings.Set: a name that is not a setting of the command's kind is refused with `AttributeError`. Python's `setattr` would create a plain instance attribute. That attribute is not a configuration setting and `iteritems` never lists it.
- Framing.NextChunk: its own contract only bounds the position; what it reads is stated by `Framing.ReadWhatWasWritten`, `Framing.NextChunkRefusals` and `Framing.HeaderMatches`.

## Findings

| source | as written | input that shows it | evidently intended | confidence | as-written member | corrected member |
|---|---|---|---|---|---|---|
| splunklib/searchcommands/search_command.py:493-495 (same code at splunklib/searchcommands/internals.py:290-291) | The `imap` iterator is exhausted by the first join, so the list cell of a multi-value field with two or more items is always `$$` | `['a', 'b']` gives list cell `$$`, which decodes to `['']` | `$a$;$b$`, which decodes back to `['a', 'b']` | high; not executed | MultiValue.ListCellsAsWritten | MultiValue.IntendedCellsRoundTrip |
| splunklib/searchcommands/internals.py:264 | `_clear` calls `cStringIO.reset()`, which rewinds without truncating, so `getvalue()` after a flush keeps the tail of the previous chunk | writing `aaaa,bbb\r\n`, clearing, then writing `c,d\r\n` leaves `c,d\r\nbbb\r\n` | the buffer holds only `c,d\r\n` | high; not executed | RecordWriting.ResetKeepsStaleTail | RecordWriting.TruncateThenWrite |
| splunklib/searchcommands/decorators.py:72-75 | `Configuration.__call__` builds the settings class with `ConfigurationSettingsType(module=…, name=…, bases=…)`, leaving out the `settings` argument its `__new__` requires, so decorating a class always raises `TypeError` | `@Configuration()` on any command class | the class is named and its settings are fixed up | high; not executed | Options.DecorateClassFails | Options.DecorateIntended |
| splunklib/searchcommands/decorators.py:183 | `_get_specification` reads `ConfigurationSettingsType.specification_matrix`, which is defined nowhere, so `fix_up` raises `AttributeError` at the first declared setting | any class that declares a `ConfigurationSetting` | each setting is looked up in a table of known settings and its values are applied | high; not executed | Options.FixUpAsWrittenFails | Options.FixUpOutcome |
| splunklib/searchcommands/decorators.py:142-144 | `setting.getter(...)` returns a copy made without `readonly`, so `if not setting._readonly` always attaches a setter | `foo = ConfigurationSetting(readonly=True, value=1)` configured with `foo=2` | the value supplied for a read-only setting is refused as fixed | high; not executed | Options.ReadonlySettingExample | Options.FixUpOutcome |
| splunklib/searchcommands/streaming_command.py:117 (and :112) | `_execute` reads `self.finished` and calls `self._encode_value`, which neither `SearchCommand` nor `StreamingCommand` defines | any chunk that reaches the end of the record loop | the command's `finished` setting and the record writer's encoder are used | medium; not executed | Streaming.MissingFinishedFaults | Streaming.FinishedChunkReadsBack |
| splunklib/searchcommands/search_command.py:666 | The `partial` setter stores its value in `_stderr_dest` | `partial = True` reads back `False` and makes `stderr_dest` `True` | `partial` reads back `True` and `stderr_dest` is unchanged | high; not executed | Settings.PartialSetterAsWritten | Settings.SetThenGet |
