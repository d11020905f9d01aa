# Licensing-hearing PDF extractor, modelled in Dafny

This project models `scripts/extract_entity.py`. That script reads the
minutes of a municipal licensing hearing, cuts its "Transactional Hearing"
section into one text block per applicant and parses each block into a
twelve-key record. It then keeps the records for the two liquor-licence types
of interest and stamps them with the hearing date and an expiration date one
year later. Unless the run is a seeding run, it appends them, newly indexed,
to a JSON data file.

The PDF library and the file system are replaced by plain inputs:
- the text of the first page (`Option<string>`);
- the layout tree of pages, blocks, lines and spans (a datatype);
- whether the PDF file exists;
- what the data file holds (`StoredFile`) and whether it can be written.

Every regular expression the script uses is a small hand-written matcher
over `seq<char>`. Each matcher comes with a predicate describing all the
ways the pattern can match, and a lemma showing that the matcher returns
the match the backtracking engine picks first.

The source's form is kept:
- `parse_entity` fills its fields in a method with a line loop.
- `extract_entities_from_pdf` is a method with nested page, block, line and
  span loops, updating the collection flag and the two lists.
- `write_to_file` renumbers the incoming records in place, in an array, and
  assigns the new contents of the data file (a `Store` object).
- `process_pdf` is a method that loops over the entities.

Each method is proved equal to a specification function. The properties are
proved about those functions.

Modules, one per file:
- `Options` holds the `Option` type.
- `Records` holds the record and the licence-type allow-list.
- `Text` models Python's `isspace`, `strip`, `lower`, `splitlines`, `join` and `in` on ASCII.
- `Paths` models `os.path.basename` and `os.path.join`.
- `Matchers` holds the patterns of `parse_entity` and the alcohol-type test.
- `EntityParser` models `parse_entity`.
- `Segmenter` models `extract_entities_from_pdf`.
- `HearingDate` models `extract_hearing_date`, the one-year offset and ISO formatting.
- `Storage` models `write_to_file`.
- `Pipeline` models `process_pdf`.

Where the code and the written description of the system disagree, the
model follows the code:
- The dot after the entity number is optional (`\.?`), not required.
- The licence pattern requires the colon after `#`.
- The address is the first line that ends in five digits, whatever its shape.
- The ZIP code is the first standalone five-digit group on that line, not
  necessarily the trailing one.
- The alcohol type is decided by phrase tests on the whole block, lower-cased
  and joined. Both types also require "applied", "common victualler" and
  "7 day"; the phrase alone on one line is not enough.
- For the doing-business-as name and the licence number, the last matching
  line wins.
- Segmentation works span by span, not line by line:
  - The marker span itself is skipped and collection starts with the next span.
  - A new entity needs both the numbered-heading pattern and flags 20.
  - "Non-Hearing Transactions" switches collection off.
  - Entities are closed only at the end of the document, not at each page end.
- New indices count on from the last stored record's `index`, not from the
  maximum. A `None` there restarts at 1. With nothing stored, the incoming
  indices are left as they are.

## Model

| member | source | states |
|---|---|---|
| Text.Strip | scripts/extract_entity.py:11 | `str.strip()` leaves no whitespace at either end |
| Text.StripTrims | scripts/extract_entity.py:11 | what `strip()` returns is a stretch of the line with only whitespace before and after it |
| Text.StripSkipsSpace | scripts/extract_entity.py:38 | leading whitespace makes no difference to `strip()`, so stripping the name group ignores the whitespace `\s*` left to it |
| Text.StripBlank | scripts/extract_entity.py:11 | a line strips to nothing exactly when it is all whitespace, which is the `if line.strip()` filter |
| Text.StripStripped | scripts/extract_entity.py:38 | stripping an already stripped string changes nothing |
| Text.IndexFromIsLeftmost | scripts/extract_entity.py:46 | the substring search finds the leftmost occurrence, and finds none exactly when there is none |
| Text.ContainsIff | scripts/extract_entity.py:63-66 | Python's `in` holds exactly when the phrase occurs at some position |
| Text.SplitLinesBlank | scripts/extract_entity.py:11 | a block is all whitespace exactly when each of its `splitlines()` pieces is |
| Text.SplitLinesOneLine | scripts/extract_entity.py:11 | no `splitlines()` piece holds a line break, so `.` in the patterns of lines 35 and 47 can match any character of a piece |
| Text.NonBlankStripped | scripts/extract_entity.py:11 | the list comprehension keeps non-empty stripped lines only, and keeps none exactly when every piece is blank |
| Text.KeptLinesEmptyIffBlank | scripts/extract_entity.py:11-29 | `lines` is empty (the early return) exactly when the block is all whitespace |
| Text.KeptLinesStripped | scripts/extract_entity.py:11 | every kept line is non-empty and stripped |
| Text.StripOneLine | scripts/extract_entity.py:11 | stripping a piece without line breaks leaves none |
| Text.NonBlankStrippedOneLine | scripts/extract_entity.py:11 | the stripped, non-blank pieces keep that property |
| Text.KeptLinesOneLine | scripts/extract_entity.py:11 | no kept line holds a line break |
| Paths.BasenameIsLastComponent | scripts/extract_entity.py:120 | `os.path.basename` is the suffix after the last `/`: it ends the path, holds no `/`, and is preceded by `/` unless it is the whole path |
| Paths.BasenameAfterSlash | scripts/extract_entity.py:212 | whatever precedes a `/` does not change the base name |
| Paths.BasenameOfJoin | scripts/extract_entity.py:212 | the base name of `os.path.join(cwd, file_name)` is the base name of `file_name`, so entities name the file as given |
| Matchers.FirstHeadingCut | scripts/extract_entity.py:35 | the cut the matcher returns is a split of `^(\d+)\.?\s*(.+)` |
| Matchers.HeadingSplitWithinRuns | scripts/extract_entity.py:35 | any split takes at most the leading digit run and at most the whitespace run after the optional dot |
| Matchers.EntityHeadingNoneIffNoSplit | scripts/extract_entity.py:35-36 | the heading fails to match exactly when no split of the pattern exists |
| Matchers.EntityHeadingSplit | scripts/extract_entity.py:35-38 | the returned groups come from the split that is first in backtracking order |
| Matchers.FirstHeadingCutComesFirst | scripts/extract_entity.py:35 | when any split exists, the matcher finds one no later in backtracking order |
| Matchers.EntityHeadingIsFirstMatch | scripts/extract_entity.py:35-38 | `re.match` on the first line: fails iff there is no split, and otherwise returns the groups of the first split in backtracking order |
| Matchers.StrippedHeadingMatchesIff | scripts/extract_entity.py:35-36 | on a stripped non-empty line the heading matches iff the line starts with a digit and has a second character |
| Matchers.StrippedHeadingGroups | scripts/extract_entity.py:37-38 | the number is a non-empty digit string and the business name does not strip to nothing |
| Matchers.StrippedHeadingNumber | scripts/extract_entity.py:37 | the number is the leading digit run, except that an all-digit line gives its last digit to the name (`123` gives `12` and `3`) |
| Matchers.StrippedHeadingName | scripts/extract_entity.py:35-38 | the stripped name group is what follows the number and its dot, stripped (`123. Test Business` gives `Test Business`); a dot ending the line is the name, and an all-digit line gives its last digit |
| Matchers.NamedHeadingRest | scripts/extract_entity.py:35-38 | on a line that is not all digits, `(.+)` starts after the whole digit run, the dot and the whitespace |
| Matchers.DigitHeadingName | scripts/extract_entity.py:35-38 | on a line of digits only, `\d+` gives back its last digit, which becomes the whole name |
| Matchers.SkipSpaces | scripts/extract_entity.py:38 | skipping a run of whitespace before a group does not change the group once stripped |
| Matchers.CutAfterSpace | scripts/extract_entity.py:35-38 | when text follows the number and its dot on a stripped line, `(.+)` starts after the whole whitespace run |
| Matchers.RestAfterDot | scripts/extract_entity.py:35-38 | when a dot ends the line after the number, backtracking gives the dot to `(.+)` |
| Matchers.HeadingOfStrippedLine | scripts/extract_entity.py:35-38 | the heading rows above combined, for the stripped first line `parse_entity` passes |
| Matchers.FirstDbaCut | scripts/extract_entity.py:47 | the start and whitespace length returned form a match of `doing business as:\s*(.+)`, ignoring case |
| Matchers.DbaSplitWithinRuns | scripts/extract_entity.py:46-47 | any match starts at or after the first occurrence of the lower-cased label and takes at most the whitespace run after it |
| Matchers.DbaGroupNoneIffNoSplit | scripts/extract_entity.py:47-48 | the search fails exactly when the pattern matches nowhere in the line |
| Matchers.DbaGroupSplit | scripts/extract_entity.py:47-49 | the group returned is that of the leftmost match, with the longest whitespace run before it |
| Matchers.DbaGroupIsFirstMatch | scripts/extract_entity.py:47-49 | `re.search` for the doing-business-as label: fails iff there is no match, and otherwise returns the first match's group |
| Matchers.LicenseNumberStripped | scripts/extract_entity.py:54 | a captured licence number has nothing to strip |
| Matchers.LicenseRun | scripts/extract_entity.py:52 | `[\w\-]+` takes the maximal run of licence characters |
| Matchers.LicenseRunMaximal | scripts/extract_entity.py:52 | no run of licence characters is longer than the one measured |
| Matchers.LicenseAt | scripts/extract_entity.py:52 | a group found at one position is a non-empty run of `[\w\-]` |
| Matchers.LicenseRestWithinRuns | scripts/extract_entity.py:52 | after `license`, each `\s*` takes its whole whitespace run and the group at most its longest run |
| Matchers.LicenseRestFound | scripts/extract_entity.py:52 | whenever the rest of the pattern can match after the label, the matcher finds a group |
| Matchers.LicenseAfterWitness | scripts/extract_entity.py:52 | what is found after the label is a split of `\s*#:\s*([\w\-]+)` with the longest group |
| Matchers.LicenseAtWitness | scripts/extract_entity.py:52 | what is found at a position is a match of `license\s*#:\s*([\w\-]+)`, ignoring case, with the longest group |
| Matchers.LicenseAtSplit | scripts/extract_entity.py:52 | no match at that position has a longer group than the one returned |
| Matchers.LicenseAtNoneIffNoSplit | scripts/extract_entity.py:52 | the pattern tried at a position fails exactly when no match starts there |
| Matchers.LicenseAtIsFirstMatch | scripts/extract_entity.py:52 | the pattern at a position fails iff nothing matches there, and otherwise returns the greedy group |
| Matchers.LicenseSearch | scripts/extract_entity.py:52-53 | `re.search` returns the group from the leftmost position where the pattern matches, and nothing iff it matches at no position |
| Matchers.LicenseGroup | scripts/extract_entity.py:51-54 | the licence number a line yields is a run of `[A-Za-z0-9_-]`, case kept |
| Matchers.FirstStandaloneFiveDigits | scripts/extract_entity.py:58 | `\b(\d{5})\b` finds the leftmost five digits with no word character on either side, and none iff there are none |
| Matchers.ZipOfAddressLine | scripts/extract_entity.py:56-60 | an address line whose last five digits have no word character before them always yields a ZIP code, possibly an earlier group; when they continue a longer digit run, that trailing group is never the match |
| Matchers.AlcoholType | scripts/extract_entity.py:62-78 | all-alcoholic iff its phrases are present; wines-and-malt iff that test fails and its own passes; `None` iff both fail; the result is always an allowed type or `None` |
| EntityParser.LicenseValue | scripts/extract_entity.py:51-54 | the guarded, stripped search equals the captured group, a licence number |
| EntityParser.ParseEntity | scripts/extract_entity.py:10-87 | the method, with its field-by-field line loop, returns the record the specification function gives |
| EntityParser.ReadLine | scripts/extract_entity.py:44-60 | one loop pass updates the four loop fields as one step of the specification scan |
| EntityParser.GuardedOffers | scripts/extract_entity.py:46-60 | the `in line.lower()` guards never change what a line contributes |
| EntityParser.ScanDbaLastWins | scripts/extract_entity.py:46-49 | the loop leaves the name offered by the last line that offers one, and `None` iff no line does |
| EntityParser.ScanLicenseLastWins | scripts/extract_entity.py:51-54 | the loop leaves the number offered by the last line that offers one, and `None` iff no line does |
| EntityParser.ScanAddressFirstWins | scripts/extract_entity.py:56-60 | address and ZIP come from the first address line and are never overwritten; without one the address is `None` and so is the ZIP |
| EntityParser.BlankEntity | scripts/extract_entity.py:11-32 | all twelve keys are `None` iff the block is all whitespace; otherwise the file name is the last kept line, non-empty and stripped; index, status and dates are never set |
| EntityParser.HeadingFields | scripts/extract_entity.py:34-41 | number and name are set together, iff the first kept line starts with a digit and has a second character; the number is its leading digit run and the name is the rest of the line after the number and its dot, stripped, and non-empty |
| EntityParser.DbaField | scripts/extract_entity.py:43-49 | `dba_name` comes from the last kept line that carries one, `None` iff no line does |
| EntityParser.LicenseField | scripts/extract_entity.py:43-54 | `license_number` comes from the last kept line that carries one, `None` iff no line does |
| EntityParser.LicenseFieldChars | scripts/extract_entity.py:52-54 | `license_number` keeps its case and holds only `[A-Za-z0-9_-]` |
| EntityParser.FirstAddressLine | scripts/extract_entity.py:56 | the first line ending in five digits, and none iff no line does |
| EntityParser.AddressFields | scripts/extract_entity.py:56-60 | `address` is the first kept line ending in five digits, and `zipcode` is that line's first standalone five-digit group |
| EntityParser.AlcoholTypeOfEntity | scripts/extract_entity.py:31 | the alcohol type is decided on the lower-cased, space-joined kept lines, the all-alcoholic test first, and is always allowed or `None` |
| Segmenter.NumberedHeadingIff | scripts/extract_entity.py:109 | the span matcher accepts exactly the texts `^\d+\.?\s+.*` matches |
| Segmenter.Groups | scripts/extract_entity.py:146-154 | the kept spans cut into entities: no entity is empty, and there are none iff no span was kept |
| Segmenter.TieAppend | scripts/extract_entity.py:146-154 | appending a kept span to `current_entity_lines`, or closing the entity at a heading span, keeps the lists in step with the cut |
| Segmenter.TieClose | scripts/extract_entity.py:162-164 | closing the last open entity yields exactly the cut of all kept spans |
| Segmenter.TakeSpan | scripts/extract_entity.py:133-154 | one pass of the span loop moves the flag and the lists as one step of the walk, and reports the `break` |
| Segmenter.KeepSpan | scripts/extract_entity.py:146-154 | a kept span extends the walk by exactly that span and keeps the lists in step |
| Segmenter.WalkLine | scripts/extract_entity.py:130-157 | the loop over a line's spans moves the flag and the lists as the walk over those spans |
| Segmenter.ExtractEntities | scripts/extract_entity.py:108-167 | the method returns `None` when the PDF cannot be opened, and otherwise the segmentation of the document |
| Segmenter.FinishEndsWithName | scripts/extract_entity.py:149-150 | an entity is its lines joined by line feeds, a line feed and the file name |
| Segmenter.EntitiesEndWithName | scripts/extract_entity.py:148-164 | every emitted entity is one group of kept spans, joined by line feeds, then a line feed and the base name |
| Segmenter.GroupsFlatten | scripts/extract_entity.py:146-154 | the entities, in order, give back exactly the kept spans |
| Segmenter.GroupsCutAtStarts | scripts/extract_entity.py:146-154 | every entity after the first opens with a numbered span in the heading font, and no other span of an entity is one |
| Segmenter.ScanSpansKeeps | scripts/extract_entity.py:132-154 | the spans a line adds are non-empty, stripped and free of both markers, and earlier ones are kept |
| Segmenter.SpanStepKeeps | scripts/extract_entity.py:133-154 | one span adds at most one span, and a good one |
| Segmenter.ScanLinesKeeps | scripts/extract_entity.py:130-157 | the same for the lines of a block |
| Segmenter.ScanBlocksKeeps | scripts/extract_entity.py:128-129 | the same for the text blocks of a page |
| Segmenter.ScanPagesKeeps | scripts/extract_entity.py:123-128 | the same for the pages of the document |
| Segmenter.SegmentedSpans | scripts/extract_entity.py:123-164 | dropping each entity's file name gives exactly the kept spans in order, each non-empty, stripped and marker-free; a new entity begins only at a numbered span with flags 20 |
| Segmenter.QuietSpansKeepOff | scripts/extract_entity.py:137-139 | without a start-marker span, collection stays off and nothing is kept |
| Segmenter.QuietLinesKeepOff | scripts/extract_entity.py:130-157 | the same over lines |
| Segmenter.QuietBlocksKeepOff | scripts/extract_entity.py:128-129 | the same over blocks |
| Segmenter.QuietPagesKeepOff | scripts/extract_entity.py:123-128 | the same over pages |
| Segmenter.NoSectionNoEntities | scripts/extract_entity.py:110-167 | without a "Transactional Hearing" span the result is `[]` |
| HearingDate.MonthFrom | scripts/extract_entity.py:93 | the alternation returns a month named at the position, and none iff no month from there on is |
| HearingDate.MonthPrefixesDistinct | scripts/extract_entity.py:93 | every month name in the alternation has at least three letters, and no two share their first three, which is why at most one name can start at any position |
| HearingDate.OneMonthAt | scripts/extract_entity.py:93 | at most one month name occurs at any position |
| HearingDate.MonthAtFinds | scripts/extract_entity.py:93 | a month named at a position is the one the alternation finds |
| HearingDate.RestSplitRuns | scripts/extract_entity.py:93 | a match takes whole whitespace runs and the whole one- or two-digit day |
| HearingDate.RestSplitIsDateAfter | scripts/extract_entity.py:93 | every way the rest of the pattern can match is the one the matcher finds |
| HearingDate.DateAfterIsSplit | scripts/extract_entity.py:93 | what the matcher finds after a month name is a match of `\s+\d{1,2},\s+\d{4}` |
| HearingDate.DateSplitIsDateAt | scripts/extract_entity.py:93 | any match at a position is the one the matcher returns there |
| HearingDate.DateAtIsSplit | scripts/extract_entity.py:93 | what the matcher returns at a position is a match of the date pattern |
| HearingDate.DateAtIff | scripts/extract_entity.py:93 | the matcher succeeds at a position iff the pattern matches there |
| HearingDate.FirstFrom | scripts/extract_entity.py:97 | the first marked position, and none iff nothing is marked |
| HearingDate.FindDate | scripts/extract_entity.py:97 | `re.search` returns the leftmost matching position, and none iff the pattern matches nowhere |
| HearingDate.LeftmostMatchDecides | scripts/extract_entity.py:97-104 | the leftmost match alone decides: its date when the calendar has it, the conversion error otherwise, whatever later matches say |
| HearingDate.FailureMessages | scripts/extract_entity.py:103-106 | the error text names the file exactly when the pattern matches nowhere, and is the conversion error when the leftmost match is not a calendar date |
| HearingDate.NoMatchNotFound | scripts/extract_entity.py:105-106 | "Could not find date in the pdf" iff the pattern matches nowhere; a found date is a real calendar date |
| HearingDate.FoundDateDigits | scripts/extract_entity.py:93 | a match has a real month, a day of one or two digits and a year of four |
| HearingDate.AddOneYear | scripts/extract_entity.py:220 | same month and day a year later, 29 February becoming 28 February, a valid date; `None` exactly for year 9999 |
| HearingDate.Padded | scripts/extract_entity.py:235-236 | zero-padded to the width, digits only |
| HearingDate.Iso | scripts/extract_entity.py:235-236 | the `YYYY-MM-DD` shape: ten characters with dashes at 4 and 7 |
| HearingDate.NumberOfPadded | scripts/extract_entity.py:235-236 | a padded number reads back as itself |
| HearingDate.IsoRoundTrip | scripts/extract_entity.py:235-236 | the ISO form of a valid date parses back to that date |
| HearingDate.ExpirationExample | scripts/extract_entity.py:220-236 | a hearing on 2024-01-15 expires 2025-01-15 |
| HearingDate.PaddedExample | scripts/extract_entity.py:235-236 | `01`, `15`, `2024` and `2025` come out as written |
| Storage.Store.constructor | scripts/extract_entity.py:181-188 | the data file holds what it is given |
| Storage.AssignIndices | scripts/extract_entity.py:194-199 | the `enumerate` loop gives each incoming record, in place, the start index plus its position, and changes nothing else |
| Storage.WriteToFile | scripts/extract_entity.py:169-208 | the incoming records are renumbered in place as the stored list demands; when writable, the file becomes the stored list followed by them, otherwise it is unchanged |
| Storage.MergeAppends | scripts/extract_entity.py:202 | the stored records stay first and unchanged, the incoming ones follow in order, and only their index can differ |
| Storage.MergeIndices | scripts/extract_entity.py:191-202 | new indices are last+1, last+2, … after the last stored index, or 1, 2, … when it is `None`; with nothing stored the incoming records are written as they came |
| Storage.MergeKeepsIncreasing | scripts/extract_entity.py:191-202 | a stored list with strictly increasing indices stays so after the merge, whatever the incoming records carried |
| Pipeline.DatingOf | scripts/extract_entity.py:216-222 | no dates iff no first page or no date found; a found date is valid and its expiration one year on; the expiration fails only in year 9999 |
| Pipeline.ReadDates | scripts/extract_entity.py:216-222 | the `try` block leaves the dates the specification function gives |
| Pipeline.DatingFailsOnlyAt9999 | scripts/extract_entity.py:218-222 | the date is set but the expiration missing exactly when the hearing is in year 9999 |
| Pipeline.ParsedAt | scripts/extract_entity.py:226-228 | the loop parses every entity in order: the k-th parsed record is `parse_entity` of the k-th entity |
| Pipeline.CollectRecords | scripts/extract_entity.py:224-242 | the loop leaves the list the specification fold gives, or crashes at line 236 when it does |
| Pipeline.StampCrashSticks | scripts/extract_entity.py:236 | once the loop has crashed, the whole run crashes |
| Pipeline.KeptAppend | scripts/extract_entity.py:232 | the allow-list filter distributes over concatenation, so order is kept |
| Pipeline.KeptMembers | scripts/extract_entity.py:232 | a record is kept iff it is an input record of an allowed type |
| Pipeline.StampIsKept | scripts/extract_entity.py:226-242 | `final_result` holds, in order, exactly the records of an allowed type, each finished; it crashes iff one is kept and the expiration failed |
| Pipeline.FinalizedFields | scripts/extract_entity.py:233-240 | each returned record has status `Deferred` and the `file_name` argument; other fields are untouched; dates are both `None` or the ISO hearing date and the date one year later |
| Pipeline.Deliver | scripts/extract_entity.py:244-248 | a seeding run returns the list and leaves the data file alone; otherwise the list goes to `write_to_file` and is returned as it was renumbered |
| Pipeline.ProcessPdf | scripts/extract_entity.py:210-248 | exits with status 1 when the file is missing or the PDF cannot be opened; otherwise the returned list, the crash and the new data file are those of the specification functions |

## Left out

- PDF access (`fitz.open`, `doc[0]`, `load_page`, `get_text`) is not modelled: the first page's text and the layout tree are inputs, and an unopenable PDF is `None`.
- The per-page `except` at lines 158-160 is left out: a malformed page dictionary cannot occur in the datatype that stands for the tree.
- The `except` around `parse_entity` (lines 229-231) is left out: on the modelled inputs `parse_entity` never raises, so that branch is dead.
- File system and JSON are left out: `os.getcwd`, `isfile`, `exists`, `json.loads` and `json.dump` are replaced by the `cwd` and `isFile` inputs, the `StoredFile` variants and `canWrite`.
- Stored JSON that is not a list of records is not modelled, nor a record missing its `index` key (the `KeyError` at line 192), nor a non-integer index; the stored data is always a list of records.
- Partial or interrupted writes are not modelled: a write either replaces the file or leaves it as it was.
- `print` logging and the command-line entry point (lines 250-254) are not modelled; `sys.exit(1)` is the outcome `Exited(1)`.
- Unicode is not modelled: `strip`, `isspace`, `lower`, `splitlines`, `\d`, `\w` and `\s` are modelled on ASCII only.
- Text.SplitLines: breaks at every line-break character, so `\r\n` gives an extra empty piece and a trailing break one more. Every caller drops blank pieces, so the kept lines are those of `str.splitlines()`.
- HearingDate.Message: the conversion error omits the library's own text that line 104 appends after the colon; the message is only printed, at line 222.
- The general regex engine, `strptime` and `relativedelta` are not modelled: only the patterns the script uses, English month names, the leap-year rule and the 29 February clamp are written out.
- Pipeline.ProcessPdf: a hearing in the year 9999 is not ruled out by a precondition. `relativedelta` raises inside the `try` at line 220 after the date is set, and the model then reports the crash at line 236 (`Crashed`) as soon as a record is kept.
- Storage.WriteToFile: the returned records are the renumbered ones, because `write_to_file` changes the same dictionaries `process_pdf` returns; this aliasing is modelled by passing one array and returning its contents afterwards, not by sharing objects.
