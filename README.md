# Orbtrace host tool, modelled in Dafny

This project models the core of the host-side tool for the Orbtrace debug
probe. Three parts are modelled:

- **The probe interface** (`software/Src/orbtraceIf.c`,
  `software/Inc/orbtraceIf.h`, module `OrbtraceInterface`):
  - the VID/PID whitelist;
  - the NULL-tolerant string compare and the device ordering used by `qsort`;
  - the scan that collects and sorts the matching devices;
  - the accessors, the two stubs, and context creation and destruction.
- **The command-line front end** (`software/Src/orbtrace.c`, module
  `Orbtrace`):
  - option processing and its sanity rules;
  - the voltage check;
  - the device table and the interactive selection.
- **The generic helpers** (`software/Src/generics.c`, module `Generics`):
  - escaping and unescaping of control characters into a static working
    buffer;
  - the report level and the report filter.

## How the model is built

State changed in place is modelled with classes:

- `Generics.Context` holds `lstore` and the two static `_POSIX_ARG_MAX`
  working buffers, as arrays.
- `OrbtraceInterface.OrbtraceIf` holds the libusb list, `numDevices` and the
  device records.
- `Orbtrace.Program` holds the global `options` record.

Each modelled loop of the source is a method with loop invariants. For example,
`Generics.Context.Escape` and `Generics.Context.Unescape` fill their arrays byte
by byte, and `OrbtraceIf.GetDeviceList` scans and then sorts. Each such method is
proved equal to a specification function on values. The properties are proved
as lemmas about those functions:

- Unescaping after the escape gives the input back, for a string without
  backslash whose escape fits in 4095 bytes (the string is what the buffer
  holds up to its first NUL). This holds for the escape as written and for
  the corrected one, which agree on such strings.
- The corrected device ordering is a total preorder. The scan keeps exactly the
  whitelisted, openable, serial-matching devices, sorted and without loss.
- Option processing refuses a reset or a device listing combined with a
  change, and refuses the options it has no case for.
- The device table is as wide as its widest row, and for the first 99 rows
  its column bars line up (from row 100 on, `%2i` prints three characters
  and moves that row's bar one column right).

Inputs the source takes from the system become parameters:

- The devices libusb enumerates are a sequence of `RawDevice`: their
  descriptor fields, whether `libusb_open` succeeds, and their string
  descriptors.
- Whether `libusb_init` succeeds is a flag.
- The uninitialised transfer buffer starts with a given string.
- The command line is a sequence of options, each with its letter, its
  argument if any, and that argument's number. `Orbtrace.Getopt` models the
  choice `getopt` makes for the option string "b:f:hlLn:o:qQ:p:r:s:Uv:wW".
- The numbers `scanf` reads are a sequence.
- The text `_selectDevice` prints is returned as a string, with EOL as for
  the Linux build ("\n").

Quirks the model keeps as written:

- **Trace width.** The sanity test
  `traceWidth != DONTSET && != 1 && != 2 && == 4` refuses only 4 and passes
  every other width, 3 included. The usage text promises 1, 2 or 4
  (`Orbtrace.WidthRejectedOnlyFour`, `Orbtrace.WidthExamples`).
- **Options refused by getopt or the switch.**
  - `-f`, `-q` and `-Q` are in the option string but have no case in the
    switch, so they are refused as unrecognised.
  - `-F` and `-j` have cases but are not in the option string. getopt answers
    `?` for them, so their cases are never reached (`Orbtrace.RefusedLetters`).
- **`-W` is always refused**, because it counts itself as a change
  (`Orbtrace.ResetAlwaysRefused`).
- **Vendor and product ids are never filled in.** `vid` and `pid` of every
  stored record stay 0, because only the memset writes them. So the last two
  keys of `_compareFunc` never decide anything
  (`OrbtraceInterface.CompareIgnoresIds`).
- **A stale serial number.** For a device without a serial-number descriptor,
  when no serial was requested, the stored serial is whatever the transfer
  buffer last held. That can be the previous device's product string
  (`OrbtraceInterface.StaleSerialExample`).
- **NULL sort order.** When only one of two manufacturer or product strings
  is NULL, `_strcmpint` orders the present one first. The model follows the
  code here; the `-1`/`1` answers of lines 78-79 say so.
- **A byte lost after an octal escape.** The inner loop of the octal case
  stops on the first non-octal byte, and the outer loop's `*s++` then skips
  it, so "\101xB" unescapes to "AB" (`Generics.OctalEscapeSkipsNext`,
  `Generics.OctalEscapeExample`).
- **Backslash is not escaped.** Escaping does not escape `\` itself, so a
  string holding a backslash does not survive the round trip
  (`Generics.BackslashBreaksRoundTrip`).

## Model

| member | source | states |
|---|---|---|
| `Generics.CString` | software/Src/generics.c:100-101 | the string a reader of a returned buffer sees is a prefix of that buffer without NUL, ended by the first NUL |
| `Generics.EscapeLetter` | software/Src/generics.c:54-91 | the escape switch: BEL, BS, FF, NL, CR, TAB and VT get the letters a, b, f, n, r, t and v, and every other byte has no escape; `EscapeTablesInverse` proves it inverse to `ControlFor` |
| `Generics.ControlFor` | software/Src/generics.c:123-149 | the letter switch of unescape, from the seven letters back to their control bytes; `EscapeTablesInverse` proves it inverse to `EscapeLetter` |
| `Generics.EscapeTablesInverse` | software/Src/generics.c:54-149 | the seven escape letters of the two switches are mutually inverse, and no letter is NUL, a backslash or an octal digit |
| `Generics.EscapeCode` | software/Src/generics.c:54-95 | each input byte other than NUL, escaped or not, takes one or two output bytes, none of them NUL |
| `Generics.EscapeAll` | software/Src/generics.c:52-98 | the reference escape with no buffer bound, each byte replaced by its code in order; `EscapeAllLength`, `EscapeAllStep` and `EscapeFixedSpec` tie the loop to it |
| `Generics.EscapeAllLength` | software/Src/generics.c:52-98 | the full escape of a string is between one and two times its length |
| `Generics.EscapeAllPrefix` | software/Src/generics.c:52-98 | escaping a prefix gives a prefix of the escape |
| `Generics.EscapeAllStep` | software/Src/generics.c:52-98 | escaping one more byte appends that byte's code |
| `Generics.EscapeLoop` | software/Src/generics.c:52-98 | the as-written do/while loop only appends to what it has written, and can end one byte past the last in-bounds index |
| `Generics.EscapeWritten` | software/Src/generics.c:45-102 | as written, the bytes before the terminator can number ARG_MAX, one more than the ARG_MAX - 1 bytes the buffer can hold before its terminator |
| `Generics.EscapeLoopFixed` | software/Src/generics.c:52-98 | the corrected loop only appends and never passes LIMIT |
| `Generics.EscapeFixed` | software/Src/generics.c:45-102 | the corrected escape always leaves room for its terminator inside the ARG_MAX buffer |
| `Generics.EscapePlainRun` | software/Src/generics.c:93-98 | a run of bytes that need no escape is copied one for one |
| `Generics.OverflowInput` | software/Src/generics.c:98-100 | a 4095-byte input whose last byte is a newline |
| `Generics.EscapeTerminatorOverflows` | software/Src/generics.c:98-100 | for that input, the as-written escape puts its terminator at index 4096, outside the buffer |
| `Generics.EscapeFixedAgrees` | software/Src/generics.c:52-98 | wherever the as-written loop keeps the terminator in bounds, the corrected loop writes the same bytes |
| `Generics.EscapeFixedLoopSpec` | software/Src/generics.c:52-98 | run from any point, the corrected loop writes a prefix of the full escape, and all of it when it fits |
| `Generics.EscapeFixedSpec` | software/Src/generics.c:45-102 | the corrected escape of a string is a prefix of its full escape, equals it when it fits in 4095 bytes, and otherwise stops at most one byte short of the bound: only the code that no longer fits is dropped |
| `Generics.IsOctal` | software/Src/generics.c:150 | the bytes '0' to '7', the octal case labels and the inner loop's test |
| `Generics.AllOctal` | software/Src/generics.c:153-156 | every byte of a run is an octal digit; `OctalEnd` proves the run the inner loop reads has this property |
| `Generics.OctalNumber` | software/Src/generics.c:153-156 | the base-8 value of a run of octal digits, most significant first; `OctalStep` proves the accumulator truncated to a char at each digit equals it modulo 256, and `OctalValue101` evaluates it |
| `Generics.OctalEnd` | software/Src/generics.c:151-158 | the inner loop stops at the first byte that is not an octal digit, and reads only octal digits |
| `Generics.UnescapeItem` | software/Src/generics.c:113-166 | one pass of the loop body writes at most one byte and never moves the read position backwards |
| `Generics.UnescapeLoop` | software/Src/generics.c:110-171 | the unescape loop only appends and never passes LIMIT |
| `Generics.UnescapeWritten` | software/Src/generics.c:104-175 | the bytes written before the terminator always fit inside the ARG_MAX buffer |
| `Generics.OctalStep` | software/Src/generics.c:155-158 | truncating the octal accumulator to a char at each digit gives the run's value modulo 256 |
| `Generics.OctalEscapeSkipsNext` | software/Src/generics.c:151-171 | after an octal escape the loop's own increment skips the byte that ended the run |
| `Generics.OctalRunOf101xB` | software/Src/generics.c:151-158 | in "\101xB" the octal run is the three digits 1, 0, 1 |
| `Generics.OctalValue101` | software/Src/generics.c:155-158 | the digits 1, 0, 1 have octal value 65 |
| `Generics.OctalEscapeExample` | software/Src/generics.c:151-171 | "\101xB" unescapes to "AB": the `x` after the octal escape is lost |
| `Generics.LetterEscape` | software/Src/generics.c:123-149 | a backslash and one of the seven letters give its control byte, and reading resumes after the letter |
| `Generics.OtherEscapes` | software/Src/generics.c:118-164 | a trailing backslash ends the output; a backslash before any other byte yields that byte |
| `Generics.CodeItem` | software/Src/generics.c:113-166 | the code of a byte other than NUL and backslash unescapes to that byte |
| `Generics.UnescapeCode` | software/Src/generics.c:110-171 | unescaping one code writes its byte and moves past the code, or stops at the buffer bound |
| `Generics.CStringOfTerminated` | software/Src/generics.c:100-101 | a string without NUL reads back as itself, with or without its terminator |
| `Generics.UnescapeAtEnd` | software/Src/generics.c:167-173 | at the input's terminator the loop writes it and stops |
| `Generics.EscapeAllFront` | software/Src/generics.c:52-98 | the escape of a string is its first byte's code followed by the escape of the rest |
| `Generics.EscapeAllCodesAt` | software/Src/generics.c:52-98 | a terminated escape laid out in a buffer is the codes of the string's bytes, one after another |
| `Generics.UnescapeOfEscape` | software/Src/generics.c:104-175 | unescaping laid-out codes writes the original bytes and the terminator, or stops at the buffer bound |
| `Generics.UnescapeOfEscapeAll` | software/Src/generics.c:104-175 | unescaping the full escape of a string without NUL and backslash gives the string back |
| `Generics.EscapeRoundTrip` | software/Src/generics.c:45-175 | for a string without backslash whose escape fits, unescape after the corrected escape returns the string |
| `Generics.EscapeLoopSpec` | software/Src/generics.c:52-98 | when the full escape fits in 4095 bytes, the as-written loop run from any point writes all of it |
| `Generics.EscapeWrittenFits` | software/Src/generics.c:45-102 | genericsEscape as written produces exactly the full escape of its input string whenever that fits in 4095 bytes |
| `Generics.EscapeWrittenRoundTrip` | software/Src/generics.c:45-175 | for a string without backslash whose escape fits, unescape after the as-written escape returns the string |
| `Generics.BackslashBreaksRoundTrip` | software/Src/generics.c:93-137 | "\n" written as backslash and n escapes to itself and unescapes to a newline |
| `Generics.UnescapeStep` | software/Src/generics.c:113-166 | the loop body with its inner octal loop writes exactly what one pass of the specification writes, and leaves the read position where it does |
| `Generics.Context.constructor` | software/Src/generics.c:177 | the report level starts at V_WARN, with two distinct ARG_MAX buffers |
| `Generics.Context.SetReportLevel` | software/Src/generics.c:179-183 | after setting level L, the stored level is L, and a report of level l is shown exactly when l <= L |
| `Generics.Context.GetReportLevel` | software/Src/generics.c:185-189 | returns the stored level |
| `Generics.Context.Reports` | software/Src/generics.c:229 | the report filter: a message of level l is emitted exactly when l <= lstore; `SetReportLevel` and `InitialLevelFilter` state it for the levels set |
| `Generics.Context.Escape` | software/Src/generics.c:45-102 | the buffer holds the corrected escape of the input followed by a NUL, inside the buffer, and the bytes after the terminator keep their old values |
| `Generics.Context.Unescape` | software/Src/generics.c:104-175 | the buffer holds the unescape of the input followed by a NUL, inside the buffer, and the bytes after the terminator keep their old values |
| `Generics.InitialLevelFilter` | software/Src/generics.c:229 | at the initial level, errors and warnings are shown, and information and debug output are not |
| `OrbtraceInterface.IsKnown` | software/Src/orbtraceIf.c:158-162 | a vid:pid pair is supported when it is a table entry before the sentinel; `FindValidDevice` proves the lookup loop decides exactly this and `WhitelistExact` names the pairs |
| `OrbtraceInterface.FindValidDevice` | software/Src/orbtraceIf.c:158-162 | the whitelist scan stops inside the table, on an entry with a nonzero vid exactly when the pair is known, and that entry is the pair |
| `OrbtraceInterface.WhitelistExact` | software/Src/orbtraceIf.c:45-50 | the known pairs are exactly 1209:3443 and 046d:0892, and vendor 0 is never known |
| `OrbtraceInterface.StrCmp` | software/Src/orbtraceIf.c:81 | strcmp's sign is 0 exactly for equal strings |
| `OrbtraceInterface.StrCmpAntisymmetric` | software/Src/orbtraceIf.c:81 | swapping the arguments negates the result |
| `OrbtraceInterface.StrCmpTransitive` | software/Src/orbtraceIf.c:81 | the order strcmp defines is transitive |
| `OrbtraceInterface.LexLessHeads` | software/Src/orbtraceIf.c:81 | strings whose first characters differ are ordered by those characters |
| `OrbtraceInterface.LexLessTails` | software/Src/orbtraceIf.c:81 | strings with the same first character are ordered by the rest |
| `OrbtraceInterface.StrCmpLexicographic` | software/Src/orbtraceIf.c:81 | strcmp is negative exactly when the first string is lexicographically smaller |
| `OrbtraceInterface.StrCmpIntAsWritten` | software/Src/orbtraceIf.c:73-82 | as written: undefined exactly when both strings are NULL; a present string before a NULL one, and a NULL one after a present one |
| `OrbtraceInterface.StrCmpInt` | software/Src/orbtraceIf.c:73-82 | the corrected compare: 0 exactly when both are NULL or both are the same string; a present string sorts before NULL |
| `OrbtraceInterface.StrCmpIntAgrees` | software/Src/orbtraceIf.c:73-82 | wherever the as-written compare is defined, the corrected one gives the same result |
| `OrbtraceInterface.StrCmpIntAntisymmetric` | software/Src/orbtraceIf.c:73-82 | swapping the arguments negates the result |
| `OrbtraceInterface.StrCmpIntTransitive` | software/Src/orbtraceIf.c:73-82 | the NULL-tolerant order is transitive |
| `OrbtraceInterface.CompareAsWritten` | software/Src/orbtraceIf.c:84-98 | as written, the device compare is undefined exactly when it reaches strcmp(NULL, NULL) on the manufacturers or the products |
| `OrbtraceInterface.Compare` | software/Src/orbtraceIf.c:84-98 | the corrected device compare is 0 exactly when manufacturer, product, serial, vid and pid all agree |
| `OrbtraceInterface.CompareAgrees` | software/Src/orbtraceIf.c:84-98 | wherever the as-written compare is defined, the corrected one gives the same result |
| `OrbtraceInterface.CompareAntisymmetric` | software/Src/orbtraceIf.c:84-98 | swapping the devices negates the result |
| `OrbtraceInterface.CompareTransitive` | software/Src/orbtraceIf.c:84-98 | the device order is transitive, so it is a valid qsort ordering |
| `OrbtraceInterface.CompareIgnoresIds` | software/Src/orbtraceIf.c:93-97 | with equal vid and pid, which every stored record has, devices tie exactly when their three strings agree |
| `OrbtraceInterface.Insert` | software/Src/orbtraceIf.c:200 | one insertion step of the sort standing for qsort; `InsertPermutes` and `InsertSorted` state its contents and order |
| `OrbtraceInterface.SortDevices` | software/Src/orbtraceIf.c:200 | the sort standing for qsort with `_compareFunc`; `SortPermutes`, `SortSorted` and `SortDevicesCorrect` state that it is an ordered permutation |
| `OrbtraceInterface.InsertPermutes` | software/Src/orbtraceIf.c:200 | inserting a record adds exactly that record |
| `OrbtraceInterface.InsertSorted` | software/Src/orbtraceIf.c:200 | inserting into a sorted list keeps it sorted |
| `OrbtraceInterface.SortPermutes` | software/Src/orbtraceIf.c:200 | sorting keeps exactly the records it was given |
| `OrbtraceInterface.SortSorted` | software/Src/orbtraceIf.c:200 | the sorted list is ordered by the device compare |
| `OrbtraceInterface.SortDevicesCorrect` | software/Src/orbtraceIf.c:200 | the sort is an ordered permutation of its input |
| `OrbtraceInterface.Descriptor` | software/Src/orbtraceIf.c:168 | a string descriptor read into the 256-byte buffer is a prefix of the device's string: the whole string when it is shorter than 256 characters, and exactly its first 255 otherwise |
| `OrbtraceInterface.IsSubstring` | software/Src/orbtraceIf.c:171 | `strstr(tfrString, sn) != NULL`: the needle occurs at some position of the text; `Matches` and `MatchingIndicesMembers` state the serial filter with it |
| `OrbtraceInterface.OccursAt` | software/Src/orbtraceIf.c:171 | the needle's characters stand at one given position of the text |
| `OrbtraceInterface.Matches` | software/Src/orbtraceIf.c:158-171 | a device is kept when its pair is supported, it opens, and, if a serial was requested, it has a serial string containing it; `MatchingIndicesMembers` and `ScanFilter` prove the scan keeps exactly these |
| `OrbtraceInterface.ReadSerial` | software/Src/orbtraceIf.c:167-168 | `tfrString` after the serial read: the serial when the device has one, the old contents otherwise; `StaleSerialExample` shows the old contents becoming a serial |
| `OrbtraceInterface.ReadNames` | software/Src/orbtraceIf.c:175-184 | `tfrString` after the manufacturer and product reads of a kept device, the last read winning |
| `OrbtraceInterface.MakeRecord` | software/Src/orbtraceIf.c:164-186 | the stored record: the serial copied from the buffer, the manufacturer and product when their descriptors exist, vid and pid left 0 by the memset, and the list index; `ScanContents` states it of every record |
| `OrbtraceInterface.ScanStep` | software/Src/orbtraceIf.c:158-192 | one pass of the scan loop; `ScanStepAppends` and `ScanStepIndices` state what it adds |
| `OrbtraceInterface.Scan` | software/Src/orbtraceIf.c:151-197 | the scan loop over the first n devices; `ScanIndices`, `ScanContents` and `ScanFilter` state its result, and `OrbtraceIf.GetDeviceList` is proved to compute it |
| `OrbtraceInterface.MatchingIndices` | software/Src/orbtraceIf.c:151-171 | the reference definition: the positions of the matching devices in list order; `MatchingIndicesMembers` characterises it and `ScanIndices` ties the scan to it |
| `OrbtraceInterface.ScanStepAppends` | software/Src/orbtraceIf.c:162-192 | one device adds one record to the list exactly when it matches, and never changes earlier records |
| `OrbtraceInterface.ScanStepIndices` | software/Src/orbtraceIf.c:162-192 | the index recorded for a matching device is its position in the libusb list |
| `OrbtraceInterface.ScanIndices` | software/Src/orbtraceIf.c:151-197 | after the scan, the recorded indices are exactly the positions of the matching devices, in order |
| `OrbtraceInterface.ScanContents` | software/Src/orbtraceIf.c:151-197 | every record holds, for the device at its index, that device's strings as read |
| `OrbtraceInterface.MatchingIndicesMembers` | software/Src/orbtraceIf.c:158-171 | a position is listed exactly when its device is whitelisted, opens, and matches the requested serial |
| `OrbtraceInterface.ScanFilter` | software/Src/orbtraceIf.c:151-197 | a record for device i exists exactly when device i matches, and there are as many records as matches |
| `OrbtraceInterface.StaleSerialExample` | software/Src/orbtraceIf.c:141-173 | a device with no serial descriptor, scanned after one with a product string, gets that product string as its serial |
| `OrbtraceInterface.NullManufacturersReachUndefinedCompare` | software/Src/orbtraceIf.c:73-95 | two whitelisted devices without manufacturer strings make the as-written compare undefined |
| `OrbtraceInterface.OrbtraceIf.constructor` | software/Src/orbtraceIf.c:111 | a new context holds no list and no devices |
| `OrbtraceInterface.OrbtraceIf.CreateContext` | software/Src/orbtraceIf.c:108-122 | a context is returned exactly when libusb initialises, and it is fresh and empty |
| `OrbtraceInterface.OrbtraceIf.Flush` | software/Src/orbtraceIf.c:58-71 | afterwards there are no device records |
| `OrbtraceInterface.OrbtraceIf.Destroy` | software/Src/orbtraceIf.c:125-133 | afterwards no records and no list are held |
| `OrbtraceInterface.OrbtraceIf.GetDeviceList` | software/Src/orbtraceIf.c:135-203 | the records are the scan of the given devices sorted by the corrected comparator, sorted and a permutation of the scan; the count returned is the number of matching devices |
| `OrbtraceInterface.OrbtraceIf.GetManufacturer` | software/Inc/orbtraceIf.h:91-94 | the stored manufacturer, or "" for an index past the records or a NULL field |
| `OrbtraceInterface.OrbtraceIf.GetProduct` | software/Inc/orbtraceIf.h:95-98 | the stored product, or "" for an index past the records or a NULL field |
| `OrbtraceInterface.OrbtraceIf.GetSN` | software/Inc/orbtraceIf.h:99-102 | the stored serial, or "" for an index past the records |
| `OrbtraceInterface.OrbtraceIf.ValidateVoltage` | software/Src/orbtraceIf.c:102-106 | every voltage is accepted |
| `OrbtraceInterface.OrbtraceIf.OpenDevice` | software/Src/orbtraceIf.c:205-209 | opening never succeeds |
| `OrbtraceInterface.AccessorsAfterScan` | software/Inc/orbtraceIf.h:91-102 | after a scan, each record the accessors reach belongs to a matching device and shows its strings as read |
| `Orbtrace.InOptString` | software/Src/orbtrace.c:171 | the sixteen letters of the option string "b:f:hlLn:o:qQ:p:r:s:Uv:wW"; `Getopt` and `RefusedLetters` state what getopt returns for the others |
| `Orbtrace.TakesArgument` | software/Src/orbtrace.c:171 | the nine letters the option string marks with `:`, b, f, n, o, Q, p, r, s and v; `Getopt` returns '?' for them when the argument is missing |
| `Orbtrace.Argument` | software/Src/orbtrace.c:171-258 | the text getopt leaves in `optarg`, which the switch stores for -n and -s |
| `Orbtrace.IsSetter` | software/Src/orbtrace.c:175-258 | the cases that increment `setCount`: b, L, n, o, p, r, U and W; `SetOption` and `SetCountTally` prove each adds exactly one |
| `Orbtrace.IsHandled` | software/Src/orbtrace.c:175-258 | the characters with a case of their own other than h: the setters and F, j, l, s, v and w; `ApplyOption` and `UnhandledOptionsRefused` prove every other character refuses the command line |
| `Orbtrace.Getopt` | software/Src/orbtrace.c:171 | getopt returns the letter when it is in the option string with its argument if it takes one, and '?' otherwise |
| `Orbtrace.SetOption` | software/Src/orbtrace.c:175-258 | the switch's setters increment setCount by one and the other cases leave it; reset and list flags, once set, stay set |
| `Orbtrace.ApplyOption` | software/Src/orbtrace.c:171-277 | a pass stops the processing exactly for a character without a case; a stopped state stays unchanged; setCount never falls |
| `Orbtrace.CheckVoltages` | software/Src/orbtrace.c:147-163 | TRef is refused when set and invalid; TPwr is refused when TRef passes and TPwr is set and invalid; otherwise both pass |
| `Orbtrace.Parse` | software/Src/orbtrace.c:171-278 | the getopt loop over the first n options; `SetCountTally`, `ParseMonotone` and `StoppedStays` state its properties, and `Program.ProcessOptions` is proved to compute it |
| `Orbtrace.WidthRejected` | software/Src/orbtrace.c:296-303 | the trace-width test as written; `WidthRejectedOnlyFour` proves it refuses 4 alone |
| `Orbtrace.Sanity` | software/Src/orbtrace.c:281-314 | the sanity rules in the source's order; `ResetAlwaysRefused`, `ListWithSetterRefused` and `BrightnessRule` state their effect |
| `Orbtrace.Accepts` | software/Src/orbtrace.c:165-320 | the value `_processOptions` returns; `UnhandledOptionsRefused` and `WidthExamples` state which command lines it refuses |
| `Orbtrace.InitialState` | software/Src/orbtrace.c:94-100 | the options as initialised, the initial report level V_WARN, nothing stopped; the start state of `WidthExamples` |
| `Orbtrace.CountSetters` | software/Src/orbtrace.c:175-258 | the number of setter options in a command line; `SetCountTally` proves `setCount` grows by exactly it |
| `Orbtrace.SetCountTally` | software/Src/orbtrace.c:171-259 | while nothing stops the processing, setCount grows by one for each b, L, n, o, p, r, U and W |
| `Orbtrace.ParseMonotone` | software/Src/orbtrace.c:171-277 | over later options, setCount never falls, the reset and list flags stay set, and a stop stays a stop |
| `Orbtrace.StoppedStays` | software/Src/orbtrace.c:186-276 | once processing has returned false, later options change nothing |
| `Orbtrace.ResetAlwaysRefused` | software/Src/orbtrace.c:255-287 | any command line holding -W is refused |
| `Orbtrace.ListWithSetterRefused` | software/Src/orbtrace.c:281-293 | -l together with any option that changes the device is refused |
| `Orbtrace.UnhandledOptionsRefused` | software/Src/orbtrace.c:261-277 | an option getopt classifies as having no case makes the whole command line refused |
| `Orbtrace.RefusedLetters` | software/Src/orbtrace.c:171-277 | -h, -f, -q, -Q, -F, -j, unknown letters and missing arguments never pass the switch; F and j are never returned by getopt; every other letter is handled |
| `Orbtrace.WidthRejectedOnlyFour` | software/Src/orbtrace.c:296-303 | the width test refuses 4 and nothing else; 1, 2 and 3 pass |
| `Orbtrace.StubVoltagesAlwaysPass` | software/Src/orbtrace.c:147-163 | with the stub validator the voltage check never refuses |
| `Orbtrace.BrightnessRule` | software/Src/orbtrace.c:310-314 | once the earlier rules pass, options are refused exactly for a brightness, other than -1, outside 0..255 |
| `Orbtrace.WidthExamples` | software/Src/orbtrace.c:296-303 | "-o 3 -b 200" is accepted and "-o 4" is refused |
| `Orbtrace.Max` | software/Src/orbtrace.c:74 | the `MAX` macro: the result is at least both arguments and equal to one of them |
| `Orbtrace.RowWidth` | software/Src/orbtrace.c:341 | a row's width, MAX(11, manufacturer and product lengths added) + MAX(6, serial length); `MaxRowWidthIsMax` and `RowPadding` use it |
| `Orbtrace.Listing` | software/Src/orbtrace.c:339-341 | one entry per device index from 0 up to the device count |
| `Orbtrace.ListingAt` | software/Src/orbtrace.c:341 | entry i is what the three accessors return for device i |
| `Orbtrace.Digit` | software/Src/orbtrace.c:377 | the character `%i` prints for one decimal digit |
| `Orbtrace.Decimal` | software/Src/orbtrace.c:377 | the decimal digits of a number: at least one, and exactly one for numbers below 10 |
| `Orbtrace.Ordinal` | software/Src/orbtrace.c:377 | "%2i" of a number below 100 is two characters wide |
| `Orbtrace.FirstInRange` | software/Src/orbtrace.c:388-392 | the position of the first input from a point on that lies in [1, n], with none before it; none when no input lies there |
| `Orbtrace.Answer` | software/Src/orbtrace.c:388-394 | the selection loop settles on a number in [1, n] exactly when some input lies in [1, n] |
| `Orbtrace.DescWidth` | software/Src/orbtrace.c:349 | `descWidth += 1`: one more than the widest row; `HeaderBar`, `RowBar` and `ColumnsAligned` place the bars at column `DescWidth` + 5 |
| `Orbtrace.MaxRowWidth` | software/Src/orbtrace.c:339-347 | the width the first loop accumulates; `MaxRowWidthIsMax` proves it the widest row's width and `WidestRow` computes it |
| `Orbtrace.Fill` | software/Src/orbtrace.c:353-370 | max(k, 0) copies of one character, for the padding and the rule |
| `Orbtrace.Header` | software/Src/orbtrace.c:351-365 | the header line, its title centred; `HeaderBar` places its bar |
| `Orbtrace.Rule` | software/Src/orbtrace.c:367-372 | the dashed rule; `RuleLength` states its length |
| `Orbtrace.Row` | software/Src/orbtrace.c:376-384 | one device's row; `RowPadding` and `RowBar` state its padding and its bar |
| `Orbtrace.Rows` | software/Src/orbtrace.c:374-385 | the rows of all devices in index order; `ColumnsAligned` lines their bars up with the header's |
| `Orbtrace.Table` | software/Src/orbtrace.c:351-385 | header, rule and rows at the computed width; `PrintTable` and `SelectDevice` print it |
| `Orbtrace.Prompts` | software/Src/orbtrace.c:387-392 | k prompts, each an EOL and "Selection>"; `SelectDevice` prints `PromptCount` of them |
| `Orbtrace.PromptCount` | software/Src/orbtrace.c:387-392 | one prompt per number read up to the first in range, and one more that waits when none is; `ReadSelection` is proved to print it |
| `Orbtrace.MaxRowWidthIsMax` | software/Src/orbtrace.c:339-347 | the accumulated width is at least every row's width and equal to one of them |
| `Orbtrace.RowPadding` | software/Src/orbtrace.c:374-382 | each row's pad, descWidth minus the description's width, is at least 6 |
| `Orbtrace.RuleLength` | software/Src/orbtrace.c:367-372 | the rule is descWidth + 15 dashes and an EOL |
| `Orbtrace.HeaderBar` | software/Src/orbtrace.c:351-365 | the bar before "Serial" in the header stands in column descWidth + 5 |
| `Orbtrace.RowBar` | software/Src/orbtrace.c:374-384 | the bar before each serial stands in column descWidth + 5 |
| `Orbtrace.ColumnsAligned` | software/Src/orbtrace.c:351-385 | the header's bar and every row's bar, for the first 99 rows, share one column |
| `Orbtrace.AppendFill` | software/Src/orbtrace.c:353-370 | each padding loop and the rule loop print max(k, 0) copies of their character after what is already printed |
| `Orbtrace.WidestRow` | software/Src/orbtrace.c:339-347 | the first loop computes the widest row's width |
| `Orbtrace.PrintHeader` | software/Src/orbtrace.c:351-372 | prints the header and the rule for the given width |
| `Orbtrace.PrintRow` | software/Src/orbtrace.c:376-384 | prints device i's row, padded to the given width |
| `Orbtrace.PrintTable` | software/Src/orbtrace.c:351-385 | prints the header, the rule and one row per device |
| `Orbtrace.ReadSelection` | software/Src/orbtrace.c:388-392 | reads until the first input in [1, n], prompting once per read; gives none and one extra prompt when the inputs end first |
| `Orbtrace.SelectDevice` | software/Src/orbtrace.c:328-395 | one device and no listing: 0 with no output. Listing: -1 after the table. Otherwise: the first input in range minus one, after the table and one prompt per read; the result lies in [0, n) |
| `Orbtrace.Program.constructor` | software/Src/orbtrace.c:94-100 | the options start with the numeric settings DONTSET and everything else zero |
| `Orbtrace.Program.ProcessOptions` | software/Src/orbtrace.c:165-320 | the options and report level after the loop are those of the option rules; the result is true exactly when processing did not stop and every sanity rule passes |

## Left out

- **libusb.** Enumeration, descriptor reads and `libusb_open` are inputs
  (`RawDevice`), not calls.
  - A negative count from `libusb_get_device_list` is not modelled.
  - A failed string-descriptor read is not modelled.
  - Freeing and closing (`libusb_free_device_list`, `libusb_close`) are not
    modelled.
- **Process and time.** Signal handling, `atexit`, `exit`, `genericsExit`,
  `genericsPrintf` and the two timestamp functions are I/O, process control
  or the clock.
- **`genericsReport`.** Only its filter (`l <= lstore`) is modelled, not its
  formatting or colours.
- **Printed output.** It is the returned text of `SelectDevice`. The error and
  help messages of `_processOptions` are not modelled.
- **`main`, `_performActions`, `_printHelp` and `OrbtraceIfCloseDevice`.**
  `main` is glue around the modelled functions. `_performActions` has an empty
  body. `_printHelp` only prints. `OrbtraceIfCloseDevice` is declared in
  `software/Inc/orbtraceIf.h` but defined nowhere in the source.
- **Argument conversion.** `atoi` and the float conversion of `-p` and `-r` to
  millivolts are not modelled: each option carries its number already
  converted. getopt's argv handling is not modelled either (clustered flags,
  `--`, argument permutation, `optopt`).
- **Unused fields.** `qQuery` is never assigned. The `type`, `handle`, `dev`
  and `context` fields, and `OrbtraceInterfaceType` with its voltage list, are
  not used by the modelled code.
- **Memory handling in the scan.** `realloc(o->device, numDevices + 1)` sizes
  the array in bytes rather than records. The model's record list grows by a
  whole record, so the heap overflow this causes is not represented.
- **`_flushDeviceList`'s frees.** The loop that frees the strings, and the
  failure to free the array itself, are ownership questions the model leaves
  out.
- OrbtraceInterface.OrbtraceIf.GetDeviceList: the sort uses the corrected
  comparator `Compare`, in which two NULL strings are equal. For two
  whitelisted devices without manufacturer (or product) strings the source's
  qsort reaches `strcmp(NULL, NULL)` through `_strcmpint` (orbtraceIf.c lines
  80-81 and 200), which is undefined; the model returns sorted records there
  instead (see Findings).
- OrbtraceInterface.OrbtraceIf.GetDeviceList: qsort is modelled as an
  insertion sort. Only its ordering and its being a permutation follow from
  qsort. The order of records that compare equal is fixed by the model but
  unspecified in C.
- **String contents.** Descriptor texts may hold NUL in the model, and the
  initial contents of `tfrString` (the parameter `tfr0`) are not bounded by
  its 256-byte size; a C string read through `%s` or `strdup` would stop at
  the first NUL and could not exceed the buffer.
- OrbtraceInterface.OrbtraceIf.CreateContext: the calloc failure case is not
  modelled; a failed `libusb_init` gives `null`.
- Orbtrace.SelectDevice: when `scanf` meets end of input or a non-number, the
  source prompts forever. The model returns `None` once its input sequence is
  used up, and does not model a non-number separately.
- Orbtrace.Program.ProcessOptions: `-v` stores any integer as the report level;
  the enumeration's range is not enforced, as in the source.
- **EOL.** The model uses the Linux build's "\n"; other builds print "\n\r".
- **`char`.** Bytes are unsigned 0..255. The octal accumulator's truncation to
  a `char` is modelled modulo 256.

## Findings

| source | as written | input that shows it | evidently intended | confidence | as-written member | corrected member |
|---|---|---|---|---|---|---|
| software/Src/generics.c:98-100 | the loop guard lets a two-byte escape start at offset 4094, so `*d = 0` writes index 4096 of a 4096-byte buffer | 4094 plain bytes followed by a newline | the terminator always inside the buffer; an escape that does not fit is dropped | not executed | `Generics.EscapeTerminatorOverflows` | `Generics.EscapeFixedSpec` |
| software/Src/orbtraceIf.c:73-82 | `_strcmpint(NULL, NULL)` falls through to `strcmp(NULL, NULL)`, which is undefined; qsort reaches it for two devices without manufacturer strings | two whitelisted devices with `iManufacturer == 0` | two NULL strings compare equal | not executed | `OrbtraceInterface.NullManufacturersReachUndefinedCompare` | `OrbtraceInterface.StrCmpIntTransitive` |
