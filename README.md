# SourceID recovery check, modelled in Dafny

The script `check_sourceid_recovery.py` checks whether the source ids cited by
the assertions of a model-output file can be found among the entity
identifiers of a context file. It reads both JSON-lines files and builds two
indexes:

- the **entity index** (`extract_entity_ids_from_context`) maps every
  identifier carried by an entity of the context file to its metadata
  (type, identifier field, line number, and for users and files a display
  name or file name), and groups the identifiers in per-type buckets;
- the **reference index** (`extract_source_ids_from_output`) groups the
  assertions whose justification names a source under that source id, in
  first-citation order, and keeps a flat audit list of them.

`main` then splits the cited ids into matched and unmatched against the
new context file, optionally repeats the split against an old context file
and compares the two, and writes a report with the counts, the match rate,
the two lists and the number of identifiers per entity type.

The project has six modules:

| file | module | contents |
|---|---|---|
| `json.dfy` | `Json` | parsed JSON values, parsed lines (`Blank`, `Malformed`, `Record`), Python's `dict.get`, truthiness and slicing |
| `ordered_map.dfy` | `OrderedMap` | an insertion-ordered dictionary (Python's `dict`/`defaultdict`) |
| `seqs.dfy` | `Seqs` | the concatenation of per-element results, used to list the writes and citations of a file |
| `entity_index.dfy` | `EntityIndex` | the entity-index builder and its properties |
| `reference_index.dfy` | `ReferenceIndex` | the reference-index builder and its properties |
| `reconcile.dfy` | `Reconcile` | the partition, the match rate, the old/new comparison and the report |

Both builders are loops in the script and are modelled as methods with
`while` loops. Each is proved equal to a fold over a log: the list of writes
(`EntityIndex.LinesWrites`) or of citing assertions
(`ReferenceIndex.AllCitations`) that the loops process, in order. The
properties are then lemmas about the fold and the log.

A file is a sequence of parsed lines. A line that is blank after stripping is
`Blank`, a line that fails to decode is `Malformed`, and both are skipped.
Line numbers start at 1 and count skipped lines too.

## Model

| member | source | states |
|---|---|---|
| `EntityIndex.ExtractEntityIds` | check_sourceid_recovery.py:16-84 | the loop over lines, entities, identifier fields and nested chat messages produces exactly the fold of all writes of the context file, numbered from line 1 |
| `EntityIndex.IndexLine` | check_sourceid_recovery.py:28-30 | processing one line performs the writes of its `ENTITIES_TO_USE` entities in list order |
| `EntityIndex.IndexEntity` | check_sourceid_recovery.py:30-79 | processing one entity performs its identifier-field writes, then the `User` nickname write, then the `File` location write, then the nested message writes |
| `EntityIndex.IndexFields` | check_sourceid_recovery.py:34-45 | the seven identifier fields are looked up in their fixed order and each present one is written with the entity's type |
| `EntityIndex.IndexMessages` | check_sourceid_recovery.py:69-79 | each nested chat message with a `ChatMessageId` is written as type `ChatMessage` into bucket `ChatMessage` |
| `EntityIndex.TypeOf` | check_sourceid_recovery.py:31 | an entity without `type` has type `Unknown`; otherwise its declared type is used |
| `EntityIndex.IndexKeys` | check_sourceid_recovery.py:40-45 | the keys of `entity_ids` are exactly the identifiers written |
| `EntityIndex.NoKeyRemoved` | check_sourceid_recovery.py:40-79 | later writes never remove an identifier from the index |
| `EntityIndex.LastWriteWins` | check_sourceid_recovery.py:40-44 | an identifier written more than once keeps the metadata of its last write |
| `EntityIndex.StoredIsLastWrite` | check_sourceid_recovery.py:40-79 | every stored metadata is that of the identifier's last write |
| `EntityIndex.TypeBucketOrder` | check_sourceid_recovery.py:19 | the buckets of `entity_types` appear once each, in order of first write |
| `EntityIndex.TypeBucketContents` | check_sourceid_recovery.py:45-79 | each bucket holds exactly the identifiers written into it |
| `EntityIndex.BucketsCoverIndex` | check_sourceid_recovery.py:40-79 | the union of all buckets equals the key set of `entity_ids` |
| `EntityIndex.FieldWritesMembers` | check_sourceid_recovery.py:37-45 | an entity's field writes are exactly the writes of the identifier fields it has, one each |
| `EntityIndex.MessageWritesMembers` | check_sourceid_recovery.py:70-79 | the message writes are exactly the writes of the nested messages with a `ChatMessageId`, one each |
| `EntityIndex.EntityWritesExactly` | check_sourceid_recovery.py:30-79 | an entity's writes are exactly those it produces: identifier fields, `User` nickname, `File` location, nested messages |
| `EntityIndex.LineWritesProduced` | check_sourceid_recovery.py:28-30 | the writes of one line are exactly those produced by its `ENTITIES_TO_USE` entities |
| `EntityIndex.ContextWrites` | check_sourceid_recovery.py:22-79 | the writes of a context file are exactly those produced by some entity of some line, with that line's number |
| `EntityIndex.EntityIndexKeys` | check_sourceid_recovery.py:16-84 | an identifier is a key exactly when some entity of the file produces it, and its metadata is one such write's |
| `EntityIndex.ProducedIsKey` | check_sourceid_recovery.py:40-79 | every write an entity of the file produces names a key of the index |
| `EntityIndex.EntityIdentifiersIndexed` | check_sourceid_recovery.py:34-79 | every identifier field value, `User` nickname, `File` location and nested message id of every entity becomes a key |
| `EntityIndex.EntityWriteRules` | check_sourceid_recovery.py:31-79 | every write carries the entity's line number; file locations go to bucket `FilePath` and all other writes to the bucket of their type; only nicknames carry a display name and only file locations a file name |
| `EntityIndex.SkippedLine` | check_sourceid_recovery.py:22-27 | a blank or undecodable line adds nothing, and later lines keep their physical line numbers |
| `EntityIndex.NoWritesFromSkipped` | check_sourceid_recovery.py:24-25 | a blank or undecodable line produces no write |
| `EntityIndex.NonListMessagesWriteNothing` | check_sourceid_recovery.py:70-72 | a `ChatMessages` value that is a string or an object yields no message write |
| `EntityIndex.CharacterNeverNamesMessage` | check_sourceid_recovery.py:71-72 | a one-character string, which is what iterating a `ChatMessages` string yields, never passes the `ChatMessageId` test |
| `EntityIndex.NonListEntitiesWriteNothing` | check_sourceid_recovery.py:28-30 | an `ENTITIES_TO_USE` value that is an empty string or empty object yields no write |
| `ReferenceIndex.ExtractSourceIds` | check_sourceid_recovery.py:86-124 | the loop over lines and assertions produces exactly the grouping and the audit list of all citing assertions, numbered from line 1 |
| `ReferenceIndex.RecordLine` | check_sourceid_recovery.py:96-119 | processing one line records the citations of its assertions in order, with the line's utterance snippet |
| `ReferenceIndex.RecordAssertions` | check_sourceid_recovery.py:101-119 | the loop over one line's assertions records their citations in order, numbering them from 0 |
| `ReferenceIndex.RecordAssertion` | check_sourceid_recovery.py:101-119 | one assertion is recorded, as a usage and as an audit record, exactly when it cites a source |
| `ReferenceIndex.SourceIdOf` | check_sourceid_recovery.py:103-107 | a cited id is non-empty and comes from `sourceID`, or from `sourceId` when `sourceID` is falsy |
| `ReferenceIndex.SourceIdLookup` | check_sourceid_recovery.py:103-107 | `justification` shadows `reasoning` even when it is not an object; a non-object justification or none at all cites nothing; a non-empty `sourceID` wins; `sourceId` is used when `sourceID` is falsy |
| `ReferenceIndex.AssertionsCitationsMembers` | check_sourceid_recovery.py:101-107 | the citations of a line are exactly its citing assertions, with their positions |
| `ReferenceIndex.LineCitationsMembers` | check_sourceid_recovery.py:92-107 | the citations of one line are exactly those of its assertions, with its line number |
| `ReferenceIndex.CitationsExactly` | check_sourceid_recovery.py:86-124 | an assertion is recorded exactly when its justification names a non-empty source id, with its line and position |
| `ReferenceIndex.CitedIdsNonEmpty` | check_sourceid_recovery.py:107 | every recorded source id is non-empty |
| `ReferenceIndex.EmptyIdNeverKey` | check_sourceid_recovery.py:106-108 | the empty string is never a key of `source_ids` |
| `ReferenceIndex.GroupOrder` | check_sourceid_recovery.py:88 | the keys of `source_ids` are the cited ids, each once, in order of first citation |
| `ReferenceIndex.GroupContents` | check_sourceid_recovery.py:108-113 | `source_ids[id]` holds the usage of exactly every citation of `id`, in processing order |
| `ReferenceIndex.CitedIdsMembers` | check_sourceid_recovery.py:108 | an id is cited exactly when some recorded assertion cites it, exactly when its usage list is non-empty |
| `ReferenceIndex.GroupKeys` | check_sourceid_recovery.py:108-113 | an id is a key exactly when some recorded assertion cites it, and then its usage list is non-empty |
| `ReferenceIndex.SumUpdate` | check_sourceid_recovery.py:108 | appending one usage under one key raises the total usage count over distinct keys by one when that key is listed |
| `ReferenceIndex.GroupStep` | check_sourceid_recovery.py:108-113 | recording one more citation appends one usage under its id, adds the id at the end of the keys only when new, and changes no other usage list |
| `ReferenceIndex.UsageTotal` | check_sourceid_recovery.py:108-119 | the usage lists together hold one usage per recorded assertion, as many as the audit list |
| `ReferenceIndex.AuditsInOrder` | check_sourceid_recovery.py:114-119 | the audit list holds one record per recorded assertion, in processing order |
| `ReferenceIndex.UtteranceSnippet` | check_sourceid_recovery.py:98 | on a well-formed line the snippet the loop computes from the utterance string is the specification's `UtteranceOf`; its length and prefix bounds are in `ReferenceIndex.Snippets` |
| `ReferenceIndex.Snippets` | check_sourceid_recovery.py:98-118 | utterance and usage-text snippets are prefixes of at most 50 and 60 characters marked with `...`; audit text is a prefix of at most 80 characters |
| `ReferenceIndex.SkippedOutputLine` | check_sourceid_recovery.py:92-97 | a blank or undecodable line records nothing, and later lines keep their physical line numbers |
| `ReferenceIndex.NoCitationsFromSkipped` | check_sourceid_recovery.py:94-95 | a blank or undecodable line yields no citation |
| `ReferenceIndex.NonListAssertionsCiteNothing` | check_sourceid_recovery.py:99-101 | an `assertions` value that is an empty string or empty object yields no citation |
| `ReferenceIndex.OrderedConcat` | check_sourceid_recovery.py:92 | citations of an earlier line followed by those of a later line stay in file order |
| `ReferenceIndex.LineInFileOrder` | check_sourceid_recovery.py:101 | the citations of one line carry its number and follow the assertion positions |
| `ReferenceIndex.LinesInFileOrder` | check_sourceid_recovery.py:92-119 | the citations of consecutive lines are in file order and within the lines' numbers |
| `ReferenceIndex.CitationsInFileOrder` | check_sourceid_recovery.py:86-124 | the recorded assertions, and so the audit list, are in file order: by line, then by position in the line |
| `ReferenceIndex.UsagesFrom` | check_sourceid_recovery.py:108-113 | every usage listed under an id is the usage of some recorded assertion |
| `ReferenceIndex.UsagesInOrder` | check_sourceid_recovery.py:108-113 | recorded assertions in file order give each id's usages in file order |
| `ReferenceIndex.UsageListsInFileOrder` | check_sourceid_recovery.py:86-124 | each list `source_ids[id]` is in file order: by line, then by position in the line |
| `Reconcile.Partition` | check_sourceid_recovery.py:164-171 | the loop appends each cited id, in key order, to the matched list when the index knows it and to the unmatched list otherwise |
| `Reconcile.PartitionExact` | check_sourceid_recovery.py:164-171 | an id is matched exactly when it is cited and known, unmatched exactly when cited and unknown; the two lists together hold every key as often as the keys do |
| `Reconcile.PartitionCounts` | check_sourceid_recovery.py:164-171 | the two lists together hold every key as often as the keys do, so their lengths add up to the number of keys |
| `Reconcile.PartitionDistinct` | check_sourceid_recovery.py:167 | since the keys are distinct, both lists are free of duplicates |
| `Reconcile.PartitionMembers` | check_sourceid_recovery.py:164-171 | an id is matched exactly when it is cited and known, unmatched exactly when cited and unknown |
| `Reconcile.MatchedKeepsOrder` | check_sourceid_recovery.py:167-169 | two matched ids keep their relative key order in the matched list |
| `Reconcile.UnmatchedKeepsOrder` | check_sourceid_recovery.py:167-171 | two unmatched ids keep their relative key order in the unmatched list |
| `Reconcile.AllMatched` | check_sourceid_recovery.py:233-236 | the matched count equals the total exactly when every cited id is known, exactly when nothing is unmatched |
| `Reconcile.MatchedMonotone` | check_sourceid_recovery.py:164-188 | an index that knows more ids never matches fewer |
| `Reconcile.MatchRate` | check_sourceid_recovery.py:246 | the rate is `100 * matched / total`, between 0 and 100, equal to 100 exactly when all ids match; it is absent exactly when nothing is cited |
| `Reconcile.EmptyOutputDividesByZero` | check_sourceid_recovery.py:173 | for every output file and every index, the rate computation raises `ZeroDivisionError` exactly when no assertion of the file cites a source |
| `Reconcile.VerdictOf` | check_sourceid_recovery.py:196-202 | the verdict says the new file recovers more exactly when its matched count is larger, the old file exactly when it is smaller, with the difference as the margin |
| `Reconcile.CheckRecovery` | check_sourceid_recovery.py:139-250 | the run with the match rate guarded (see Findings): it builds the report from the new index, compares with the old index only when the old file yields identifiers, and says "all recovered" exactly when the matched count equals the total |
| `Reconcile.ReportCounts` | check_sourceid_recovery.py:240-248 | matched and unmatched counts add up to the total and equal the list lengths; all are matched exactly when the unmatched list is empty and exactly when every cited id is known |
| `Reconcile.ReportLists` | check_sourceid_recovery.py:240-248 | an id is reported matched exactly when some assertion cites it and some entity carries it, unmatched exactly when it is cited and no entity carries it; both lists are duplicate-free |
| `Reconcile.TypeCountsExact` | check_sourceid_recovery.py:249 | the per-type counts follow the buckets in insertion order, each with its size |
| `Reconcile.ReportTypeCounts` | check_sourceid_recovery.py:249 | the report lists every bucket once, in first-write order, with its number of distinct identifiers |
| `Reconcile.NewIndexSupersetNeverWorse` | check_sourceid_recovery.py:177-202 | when the old index knows no id the new one lacks, the comparison never reports the old file as recovering more |

## Left out

- File reading, the existence checks on the three files, JSON decoding and
  the report's file output: the model takes the files as sequences of parsed
  lines and returns the report as a value. The hard-coded paths are
  parameters (`contextFile`, `outputFile`).
- The console output: the section headers and counts, the sorted type
  breakdown, the first-10 matched sample, the first two usages of each
  unmatched id, and the messages for undecodable lines.
- The `.1f` formatting of the match rate: the rate is kept as an exact
  fraction. The unmatched rate printed beside it is not modelled either.
- Inputs on which the script raises outside its decoding handler are excluded
  by preconditions (`WellFormedContext`, `WellFormedOutput`). Examples are a
  line that is not an object, an entity list holding a non-object, a
  non-empty string or object as `ENTITIES_TO_USE` or `assertions`, a
  `ChatMessages` object with a key containing `ChatMessageId`, and an
  unhashable identifier. The shapes the script iterates without effect are
  admitted: a string or object as `ChatMessages`, a string or list message
  that fails the `ChatMessageId` test, and an empty string or object as
  `ENTITIES_TO_USE` or `assertions`. The model iterates such a value as an
  empty list, which gives the same result as iterating its characters or keys.
- Identifiers and types that are not strings (a number, say) would not make
  the script raise, but they are excluded by the same preconditions, so the
  model's keys are all strings.
- JSON numbers are integers only: floating-point values are not represented.
  The core compares identifiers and types as strings and never computes with a
  number it reads, so no operation depends on them.
- Truthiness is modelled for JSON values; the key order inside a JSON object
  is not, because the core never observes it.
- `EntityIndex.EntityIndexKeys`: when an identifier is written more than once,
  the stored `id_field` is that of its last write. The lemma states only that
  it is one of the producing writes. `EntityIndex.StoredIsLastWrite` pins it
  to the last write.
- `Reconcile.CheckRecovery`: when no assertion cites a source, the script
  raises `ZeroDivisionError` at line 173 and writes no report. The model
  instead completes the run with the guarded rate (`NoSourceIds`), the
  comparison and an "all recovered" verdict. The as-written behaviour is
  stated by `Reconcile.EmptyOutputDividesByZero` (see Findings).
- The other scripts of the repository are not part of this model.

## Findings

| source | as written | input that shows it | evidently intended | confidence | as-written member | corrected member |
|---|---|---|---|---|---|---|
| check_sourceid_recovery.py:173 | the match rate divides by `len(source_ids)` (also at lines 174, 190-191, 230-231 and 246) | an output file in which no assertion cites a source, for example an empty file (the division raises exactly in this case) | report that there are no source ids to rate instead of raising `ZeroDivisionError` before any report is written | not executed | `Reconcile.EmptyOutputDividesByZero` | `Reconcile.MatchRate` |
