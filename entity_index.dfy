/**
 * The entity-index builder of the sourceID recovery check
 * (`extract_entity_ids_from_context`): one pass over the parsed lines of a
 * context file that maps every identifier found in an entity to where it was
 * found, and groups the identifiers by entity type.
 *
 * The builder is the method `ExtractEntityIds`. Its specification is the fold
 * `ApplyAll` of `Index.Record` over the sequence of writes `LinesWrites`,
 * which lists, in processing order, every `entity_ids[id] = ...` /
 * `entity_types[bucket].add(id)` pair the loops perform.
 * Both nested lists are flattened by `Seqs.ConcatMap`, which hands each
 * element a context and its position: `EntityWrites` ignores the position and
 * `LineWrites` takes a unit context, because neither needs the argument.
 *
 * Inputs on which the script raises outside its JSON-decoding handler (a line
 * that is not an object, an entity list that is not a list of objects, an
 * identifier that is not a string) are excluded by the builder's precondition
 * `WellFormedContext`. The specification functions read the input through the
 * total accessors `Fields`, `Items` and `AsStr`, which agree with direct access
 * on every input that precondition admits.
 */
module EntityIndex {
  import opened Json
  import opened OrderedMap
  import opened Seqs

  /** The identifier fields looked up in every entity, in lookup order. */
  const IdFields: seq<string> :=
    ["EventId", "FileId", "ChatMessageId", "OnlineMeetingId", "EmailId", "ChannelMessageId", "ChatId"]

  /** The optional display metadata stored beside some identifiers. */
  datatype Extra = NoExtra | DisplayName(displayName: Json) | FileName(fileName: Json)

  /** The metadata `{type, id_field, line, ...}` stored for an identifier. */
  datatype EntityInfo = EntityInfo(entityType: string, idField: string, line: nat, extra: Extra)

  /** One paired update: `entity_ids[id] = info` and `entity_types[bucket].add(id)`. */
  datatype Write = Write(id: string, info: EntityInfo, bucket: string)

  /** The two results of the builder: `entity_ids` and `entity_types`. */
  datatype Index = Index(ids: map<string, EntityInfo>, types: OMap<string, set<string>>) {

    /** Performs one write; the identifier overwrites earlier metadata (last write wins). */
    function Record(w: Write): Index {
      Index(ids[w.id := w.info], types.Put(w.bucket, BucketOf(types, w.bucket) + {w.id}))
    }
  }

  const EmptyIndex: Index := Index(map[], OMap([], map[]))

  /** `entity_types[bucket]` of the `defaultdict(set)`: empty when absent. */
  function BucketOf(types: OMap<string, set<string>>, bucket: string): set<string> {
    if bucket in types.values then types.values[bucket] else {}
  }

  /** The union of all per-type buckets. */
  function Flatten(types: OMap<string, set<string>>): set<string> {
    set b, x | b in types.values && x in types.values[b] :: x
  }

  // ---------------------------------------------------------------------------
  // Shape of the input that the script handles without raising.

  /** An element of `ChatMessages` that the test `'ChatMessageId' in msg`
      accepts without raising: an object whose identifier, if any, is a
      string, or a string or list in which the test is false. */
  predicate WellFormedMessage(m: Json) {
    || (m.Obj? && StrOrAbsent(m.fields, "ChatMessageId"))
    || (m.Str? && !Contains(m.s, "ChatMessageId"))
    || (m.Arr? && Str("ChatMessageId") !in m.items)
  }

  /** A `ChatMessages` value the inner loop iterates without raising. A string
      yields one-character strings and an object yields its keys; in neither
      does `'ChatMessageId' in msg` hold unless a key contains that text, so
      such a value contributes nothing. */
  predicate WellFormedMessages(v: Json) {
    || (v.Arr? && forall i :: 0 <= i < |v.items| ==> WellFormedMessage(v.items[i]))
    || v.Str?
    || (v.Obj? && forall k :: k in v.fields ==> !Contains(k, "ChatMessageId"))
  }

  predicate WellFormedEntity(e: Json) {
    && e.Obj?
    && StrOrAbsent(e.fields, "type")
    && (forall i :: 0 <= i < |IdFields| ==> StrOrAbsent(e.fields, IdFields[i]))
    && (TypeOf(e) == "User" ==> StrOrAbsent(e.fields, "MailNickName"))
    && (TypeOf(e) == "File" ==> StrOrAbsent(e.fields, "FileLocation"))
    && ("ChatMessages" in e.fields ==> WellFormedMessages(e.fields["ChatMessages"]))
  }

  /** A decoded line whose `ENTITIES_TO_USE` the outer loop iterates without
      raising: a list of well-formed entities, or an empty string or object,
      which yields nothing. */
  predicate WellFormedContextLine(l: Line) {
    l.Record? ==>
      && l.data.Obj?
      && ("ENTITIES_TO_USE" in l.data.fields ==>
            var v := l.data.fields["ENTITIES_TO_USE"];
            || (v.Arr? && forall i :: 0 <= i < |v.items| ==> WellFormedEntity(v.items[i]))
            || v == Str("")
            || v == Obj(map[]))
  }

  predicate WellFormedContext(lines: seq<Line>) {
    forall i :: 0 <= i < |lines| ==> WellFormedContextLine(lines[i])
  }

  // ---------------------------------------------------------------------------
  // Reading an entity.

  /** `entity.get('type', 'Unknown')` */
  function TypeOf(e: Json): (t: string)
    ensures "type" !in Fields(e) ==> t == "Unknown"
    ensures "type" in Fields(e) && Fields(e)["type"].Str? ==> Fields(e)["type"] == Str(t)
  {
    if "type" in Fields(e) then AsStr(Fields(e)["type"]) else "Unknown"
  }

  /** `data.get('ENTITIES_TO_USE', [])`; a blank or malformed line has none. */
  function EntitiesOf(l: Line): seq<Json> {
    if l.Record? then Items(Get(Fields(l.data), "ENTITIES_TO_USE", Arr([]))) else []
  }

  /** The nested `ChatMessages` of an entity, or none. */
  function MessagesOf(e: Json): seq<Json> {
    Items(Get(Fields(e), "ChatMessages", Arr([])))
  }

  // ---------------------------------------------------------------------------
  // The writes the builder performs, in processing order.

  /** The writes for the first `count` identifier fields of an entity. */
  function FieldWrites(e: Json, line: nat, count: nat): seq<Write>
    requires count <= |IdFields|
  {
    if count == 0 then []
    else
      var f := IdFields[count - 1];
      FieldWrites(e, line, count - 1) +
        if f in Fields(e) then [Write(AsStr(Fields(e)[f]), EntityInfo(TypeOf(e), f, line, NoExtra), TypeOf(e))]
        else []
  }

  /** The `MailNickName` write of a `User` entity. */
  function UserWrites(e: Json, line: nat): seq<Write> {
    if TypeOf(e) == "User" && "MailNickName" in Fields(e) then
      [Write(AsStr(Fields(e)["MailNickName"]),
             EntityInfo("User", "MailNickName", line, DisplayName(Get(Fields(e), "DisplayName", Str("")))),
             "User")]
    else []
  }

  /** The `FileLocation` write of a `File` entity; it goes to bucket `FilePath`. */
  function FileWrites(e: Json, line: nat): seq<Write> {
    if TypeOf(e) == "File" && "FileLocation" in Fields(e) then
      [Write(AsStr(Fields(e)["FileLocation"]),
             EntityInfo("File", "FileLocation", line, FileName(Get(Fields(e), "FileName", Str("")))),
             "FilePath")]
    else []
  }

  /** The writes for nested chat messages. */
  function MessageWrites(ms: seq<Json>, line: nat): seq<Write> {
    if ms == [] then []
    else
      var m := ms[|ms| - 1];
      MessageWrites(ms[..|ms| - 1], line) +
        if "ChatMessageId" in Fields(m) then
          [Write(AsStr(Fields(m)["ChatMessageId"]), EntityInfo("ChatMessage", "ChatMessageId", line, NoExtra), "ChatMessage")]
        else []
  }

  /** The writes for one entity of line `line`; its position in the list plays no part. */
  function EntityWrites(line: nat, position: nat, e: Json): seq<Write> {
    FieldWrites(e, line, |IdFields|) + UserWrites(e, line) + FileWrites(e, line) + MessageWrites(MessagesOf(e), line)
  }

  /** The writes for the line numbered `line`. */
  function LineWrites(none: (), line: nat, l: Line): seq<Write> {
    ConcatMap(EntityWrites, line, EntitiesOf(l), 0)
  }

  /** The writes for consecutive lines, the first of which has number `first`. */
  function LinesWrites(lines: seq<Line>, first: nat): seq<Write> {
    ConcatMap(LineWrites, (), lines, first)
  }

  /** `entity_ids` after performing the writes `ws` in order. */
  function IdsOf(ws: seq<Write>): map<string, EntityInfo> {
    if ws == [] then map[] else IdsOf(ws[..|ws| - 1])[ws[|ws| - 1].id := ws[|ws| - 1].info]
  }

  /** `entity_types` after performing the writes `ws` in order. */
  function TypesOf(ws: seq<Write>): OMap<string, set<string>> {
    if ws == [] then OMap([], map[])
    else
      var types, w := TypesOf(ws[..|ws| - 1]), ws[|ws| - 1];
      types.Put(w.bucket, BucketOf(types, w.bucket) + {w.id})
  }

  /** The state after performing the writes `ws` in order on empty results. */
  function ApplyAll(ws: seq<Write>): Index {
    Index(IdsOf(ws), TypesOf(ws))
  }

  /** What the builder returns for a context file; line numbers start at 1. */
  function BuildIndex(lines: seq<Line>): Index {
    ApplyAll(LinesWrites(lines, 1))
  }

  // ---------------------------------------------------------------------------
  // The builder.

  method ExtractEntityIds(lines: seq<Line>) returns (index: Index)
    requires WellFormedContext(lines)
    ensures index == BuildIndex(lines)
  {
    index := EmptyIndex;
    ghost var done: seq<Write> := [];
    var n := 0;
    while n < |lines|
      invariant n <= |lines|
      invariant done == LinesWrites(lines[..n], 1)
      invariant index == ApplyAll(done)
    {
      var lineNum: nat := n + 1;
      index := IndexLine(index, EntitiesOf(lines[n]), lineNum, done);
      ConcatMapStep(LineWrites, (), lines, 1, n);
      done := done + LineWrites((), lineNum, lines[n]);
      n := n + 1;
    }
    assert lines[..n] == lines;
  }

  /** The loop over the entities of one line. */
  method IndexLine(index: Index, entities: seq<Json>, lineNum: nat, ghost done: seq<Write>) returns (index': Index)
    requires index == ApplyAll(done)
    ensures index' == ApplyAll(done + ConcatMap(EntityWrites, lineNum, entities, 0))
  {
    index' := index;
    ghost var local: seq<Write> := [];
    assert done + local == done;
    var j := 0;
    while j < |entities|
      invariant j <= |entities|
      invariant local == ConcatMap(EntityWrites, lineNum, entities[..j], 0)
      invariant index' == ApplyAll(done + local)
    {
      ghost var entityWrites := EntityWrites(lineNum, j, entities[j]);
      index' := IndexEntity(index', entities[j], lineNum, done + local);
      ConcatMapStep(EntityWrites, lineNum, entities, 0, j);
      ConcatAssoc(done, local, entityWrites);
      local := local + entityWrites;
      j := j + 1;
    }
    assert entities[..j] == entities;
  }

  /** The body of the loop over entities: the seven identifier fields, then
      `MailNickName`, then `FileLocation`, then the nested chat messages. */
  method IndexEntity(index: Index, entity: Json, lineNum: nat, ghost done: seq<Write>) returns (index': Index)
    requires index == ApplyAll(done)
    ensures index' == ApplyAll(done + EntityWrites(lineNum, 0, entity))
  {
    ghost var local;
    index', local := IndexFields(index, entity, lineNum, done);
    var fields := Fields(entity);
    var entityType := TypeOf(entity);
    if entityType == "User" && "MailNickName" in fields {
      var displayName := Get(fields, "DisplayName", Str(""));
      var w := Write(AsStr(fields["MailNickName"]),
                     EntityInfo("User", "MailNickName", lineNum, DisplayName(displayName)), "User");
      AppendStep(done, local, w);
      index', local := index'.Record(w), local + [w];
    }
    assert local == FieldWrites(entity, lineNum, |IdFields|) + UserWrites(entity, lineNum);
    if entityType == "File" && "FileLocation" in fields {
      var fileName := Get(fields, "FileName", Str(""));
      var w := Write(AsStr(fields["FileLocation"]),
                     EntityInfo("File", "FileLocation", lineNum, FileName(fileName)), "FilePath");
      AppendStep(done, local, w);
      index', local := index'.Record(w), local + [w];
    }
    assert local == FieldWrites(entity, lineNum, |IdFields|) + UserWrites(entity, lineNum) + FileWrites(entity, lineNum);
    index' := IndexMessages(index', MessagesOf(entity), lineNum, done + local);
    ConcatAssoc(done, local, MessageWrites(MessagesOf(entity), lineNum));
  }

  /** The loop over the identifier fields of one entity. */
  method IndexFields(index: Index, entity: Json, lineNum: nat, ghost done: seq<Write>)
    returns (index': Index, ghost local: seq<Write>)
    requires index == ApplyAll(done)
    ensures index' == ApplyAll(done + FieldWrites(entity, lineNum, |IdFields|))
    ensures local == FieldWrites(entity, lineNum, |IdFields|)
  {
    index' := index;
    var fields := Fields(entity);
    var entityType := TypeOf(entity);
    local := [];
    assert done + local == done;
    var k := 0;
    while k < |IdFields|
      invariant k <= |IdFields|
      invariant local == FieldWrites(entity, lineNum, k)
      invariant index' == ApplyAll(done + local)
    {
      var idField := IdFields[k];
      if idField in fields {
        var w := Write(AsStr(fields[idField]), EntityInfo(entityType, idField, lineNum, NoExtra), entityType);
        AppendStep(done, local, w);
        index', local := index'.Record(w), local + [w];
      }
      k := k + 1;
    }
  }

  /** The loop over the nested chat messages of one entity. */
  method IndexMessages(index: Index, messages: seq<Json>, lineNum: nat, ghost done: seq<Write>) returns (index': Index)
    requires index == ApplyAll(done)
    ensures index' == ApplyAll(done + MessageWrites(messages, lineNum))
  {
    index' := index;
    ghost var local: seq<Write> := [];
    assert done + local == done;
    var m := 0;
    while m < |messages|
      invariant m <= |messages|
      invariant local == MessageWrites(messages[..m], lineNum)
      invariant index' == ApplyAll(done + local)
    {
      var message := Fields(messages[m]);
      assert messages[..m + 1][..m] == messages[..m];
      if "ChatMessageId" in message {
        var w := Write(AsStr(message["ChatMessageId"]),
                       EntityInfo("ChatMessage", "ChatMessageId", lineNum, NoExtra), "ChatMessage");
        AppendStep(done, local, w);
        index', local := index'.Record(w), local + [w];
      }
      m := m + 1;
    }
    assert messages[..m] == messages;
  }

  lemma RecordStep(ws: seq<Write>, w: Write)
    ensures ApplyAll(ws + [w]) == ApplyAll(ws).Record(w)
  {
    assert (ws + [w])[..|ws|] == ws;
  }

  lemma AppendStep(done: seq<Write>, local: seq<Write>, w: Write)
    ensures ApplyAll(done + (local + [w])) == ApplyAll(done + local).Record(w)
  {
    RecordStep(done + local, w);
    ConcatAssoc(done, local, [w]);
  }

  // ---------------------------------------------------------------------------
  // Properties of the fold: which keys exist, which metadata wins, what the
  // buckets hold.

  /** The buckets of the writes, in processing order. */
  function Buckets(ws: seq<Write>): seq<string> {
    if ws == [] then [] else Buckets(ws[..|ws| - 1]) + [ws[|ws| - 1].bucket]
  }

  /** The keys of the index are exactly the identifiers written; none is ever removed. */
  lemma {:induction false} IndexKeys(ws: seq<Write>)
    ensures IdsOf(ws).Keys == set w | w in ws :: w.id
  {
    if ws != [] {
      var p, w := ws[..|ws| - 1], ws[|ws| - 1];
      IndexKeys(p);
      assert ws == p + [w];
      assert (set x | x in ws :: x.id) == (set x | x in p :: x.id) + {w.id};
    }
  }

  /** Writing more never removes a key. */
  lemma NoKeyRemoved(ws: seq<Write>, more: seq<Write>)
    ensures IdsOf(ws).Keys <= IdsOf(ws + more).Keys
  {
    IndexKeys(ws);
    IndexKeys(ws + more);
  }

  /** The metadata stored for an identifier is the one of its last write. */
  lemma {:induction false} LastWriteWins(ws: seq<Write>, i: nat)
    requires i < |ws|
    requires forall j :: i < j < |ws| ==> ws[j].id != ws[i].id
    ensures ws[i].id in IdsOf(ws) && IdsOf(ws)[ws[i].id] == ws[i].info
  {
    if i < |ws| - 1 {
      LastWriteWins(ws[..|ws| - 1], i);
    }
  }

  /** Conversely, every stored metadata is that of the identifier's last write. */
  lemma {:induction false} StoredIsLastWrite(ws: seq<Write>, id: string)
    requires id in IdsOf(ws)
    ensures exists i :: 0 <= i < |ws| && ws[i].id == id && IdsOf(ws)[id] == ws[i].info &&
                        forall j :: i < j < |ws| ==> ws[j].id != id
  {
    var p, w := ws[..|ws| - 1], ws[|ws| - 1];
    if w.id != id {
      StoredIsLastWrite(p, id);
      var i :| 0 <= i < |p| && p[i].id == id && IdsOf(p)[id] == p[i].info &&
               forall j :: i < j < |p| ==> p[j].id != id;
      assert ws[i] == p[i];
    } else {
      assert ws[|ws| - 1].id == id && IdsOf(ws)[id] == ws[|ws| - 1].info;
    }
  }

  /** The buckets are listed once each, in the order in which they were first written. */
  lemma {:induction false} TypeBucketOrder(ws: seq<Write>)
    ensures TypesOf(ws).Valid()
    ensures TypesOf(ws).keys == Dedup(Buckets(ws))
  {
    if ws != [] {
      var p, w := ws[..|ws| - 1], ws[|ws| - 1];
      TypeBucketOrder(p);
      var t := TypesOf(p);
      assert TypesOf(ws) == t.Put(w.bucket, BucketOf(t, w.bucket) + {w.id});
      assert Buckets(ws) == Buckets(p) + [w.bucket];
      assert Buckets(ws)[..|Buckets(ws)| - 1] == Buckets(p);
    }
  }

  /** Each bucket holds exactly the identifiers written to it. */
  lemma {:induction false} TypeBucketContents(ws: seq<Write>, b: string)
    ensures BucketOf(TypesOf(ws), b) == set w | w in ws && w.bucket == b :: w.id
  {
    if ws != [] {
      var p, w := ws[..|ws| - 1], ws[|ws| - 1];
      TypeBucketContents(p, b);
      var t := TypesOf(p);
      assert TypesOf(ws) == t.Put(w.bucket, BucketOf(t, w.bucket) + {w.id});
      assert ws == p + [w];
      assert (set x | x in ws && x.bucket == b :: x.id)
          == (set x | x in p && x.bucket == b :: x.id) + (if w.bucket == b then {w.id} else {});
    }
  }

  /** The union of the per-type buckets is the key set of the index. */
  lemma BucketsCoverIndex(ws: seq<Write>)
    ensures Flatten(TypesOf(ws)) == IdsOf(ws).Keys
  {
    IndexKeys(ws);
    var index := ApplyAll(ws);
    forall x | x in index.ids
      ensures x in Flatten(index.types)
    {
      var w :| w in ws && w.id == x;
      TypeBucketContents(ws, w.bucket);
      assert x in BucketOf(index.types, w.bucket);
    }
    forall x | x in Flatten(index.types)
      ensures x in index.ids
    {
      var b :| b in index.types.values && x in index.types.values[b];
      TypeBucketContents(ws, b);
      assert x in BucketOf(index.types, b);
    }
  }

  // ---------------------------------------------------------------------------
  // Which writes the input produces.

  /** The writes one entity produces, as a set: one per identifier field present
      (declared type, or "Unknown"), the nickname of a "User", the location of a
      "File" (bucket "FilePath"), and one per nested message with an identifier. */
  ghost predicate Produces(e: Json, line: nat, w: Write)
  {
    || (exists i :: 0 <= i < |IdFields| && IdFields[i] in Fields(e) &&
          w == Write(AsStr(Fields(e)[IdFields[i]]), EntityInfo(TypeOf(e), IdFields[i], line, NoExtra), TypeOf(e)))
    || (TypeOf(e) == "User" && "MailNickName" in Fields(e) &&
          w == Write(AsStr(Fields(e)["MailNickName"]),
                     EntityInfo("User", "MailNickName", line, DisplayName(Get(Fields(e), "DisplayName", Str("")))),
                     "User"))
    || (TypeOf(e) == "File" && "FileLocation" in Fields(e) &&
          w == Write(AsStr(Fields(e)["FileLocation"]),
                     EntityInfo("File", "FileLocation", line, FileName(Get(Fields(e), "FileName", Str("")))),
                     "FilePath"))
    || (exists k :: 0 <= k < |MessagesOf(e)| && "ChatMessageId" in Fields(MessagesOf(e)[k]) &&
          w == Write(AsStr(Fields(MessagesOf(e)[k])["ChatMessageId"]),
                     EntityInfo("ChatMessage", "ChatMessageId", line, NoExtra), "ChatMessage"))
  }

  lemma {:induction false} FieldWritesMembers(e: Json, line: nat, count: nat, w: Write)
    requires count <= |IdFields|
    ensures w in FieldWrites(e, line, count) <==>
      exists i :: 0 <= i < count && IdFields[i] in Fields(e) &&
        w == Write(AsStr(Fields(e)[IdFields[i]]), EntityInfo(TypeOf(e), IdFields[i], line, NoExtra), TypeOf(e))
  {
    if count > 0 {
      FieldWritesMembers(e, line, count - 1, w);
    }
  }

  lemma {:induction false} MessageWritesMembers(ms: seq<Json>, line: nat, w: Write)
    ensures w in MessageWrites(ms, line) <==>
      exists k :: 0 <= k < |ms| && "ChatMessageId" in Fields(ms[k]) &&
        w == Write(AsStr(Fields(ms[k])["ChatMessageId"]), EntityInfo("ChatMessage", "ChatMessageId", line, NoExtra), "ChatMessage")
  {
    if ms != [] {
      var p := ms[..|ms| - 1];
      MessageWritesMembers(p, line, w);
      if w in MessageWrites(p, line) {
        var k :| 0 <= k < |p| && "ChatMessageId" in Fields(p[k]) &&
          w == Write(AsStr(Fields(p[k])["ChatMessageId"]), EntityInfo("ChatMessage", "ChatMessageId", line, NoExtra), "ChatMessage");
        assert ms[k] == p[k];
      }
    }
  }

  /** An entity's writes are exactly the ones it produces. */
  lemma EntityWritesExactly(e: Json, line: nat, position: nat, w: Write)
    ensures w in EntityWrites(line, position, e) <==> Produces(e, line, w)
  {
    FieldWritesMembers(e, line, |IdFields|, w);
    MessageWritesMembers(MessagesOf(e), line, w);
  }

  /** Some entity of some line (numbered from 1) produces the write. */
  ghost predicate IndexedFrom(lines: seq<Line>, w: Write)
  {
    exists n, j :: 0 <= n < |lines| && 0 <= j < |EntitiesOf(lines[n])| &&
      Produces(EntitiesOf(lines[n])[j], n + 1, w)
  }

  /** The writes of a context file are exactly those its entities produce. */
  lemma ContextWrites(lines: seq<Line>, w: Write)
    ensures w in LinesWrites(lines, 1) <==> IndexedFrom(lines, w)
  {
    ConcatMapMembers(LineWrites, (), lines, 1, w);
    if w in LinesWrites(lines, 1) {
      var n :| 0 <= n < |lines| && w in LineWrites((), 1 + n, lines[n]);
      LineWritesProduced(lines, n, w);
    }
    if IndexedFrom(lines, w) {
      var n, j :| 0 <= n < |lines| && 0 <= j < |EntitiesOf(lines[n])| &&
        Produces(EntitiesOf(lines[n])[j], n + 1, w);
      LineWritesProduced(lines, n, w);
    }
  }

  /** The writes of one line are exactly those its entities produce. */
  lemma LineWritesProduced(lines: seq<Line>, n: nat, w: Write)
    requires n < |lines|
    ensures w in LineWrites((), n + 1, lines[n]) <==>
      exists j :: 0 <= j < |EntitiesOf(lines[n])| && Produces(EntitiesOf(lines[n])[j], n + 1, w)
  {
    var line: nat, es := n + 1, EntitiesOf(lines[n]);
    ConcatMapMembers(EntityWrites, line, es, 0, w);
    forall j | 0 <= j < |es|
      ensures w in EntityWrites(line, 0 + j, es[j]) <==> Produces(es[j], line, w)
    {
      EntityWritesExactly(es[j], line, j, w);
    }
  }

  /** An identifier is a key of the entity index exactly when some entity
      produces a write of it, and its metadata is then one such write's. */
  lemma EntityIndexKeys(lines: seq<Line>, id: string)
    ensures id in BuildIndex(lines).ids <==> exists w: Write :: w.id == id && IndexedFrom(lines, w)
    ensures id in BuildIndex(lines).ids ==>
      exists w: Write :: w.id == id && IndexedFrom(lines, w) && BuildIndex(lines).ids[id] == w.info
  {
    var ws := LinesWrites(lines, 1);
    IndexKeys(ws);
    if id in BuildIndex(lines).ids {
      StoredIsLastWrite(ws, id);
      var i :| 0 <= i < |ws| && ws[i].id == id && IdsOf(ws)[id] == ws[i].info &&
               forall j :: i < j < |ws| ==> ws[j].id != id;
      ContextWrites(lines, ws[i]);
    }
    if exists w: Write :: w.id == id && IndexedFrom(lines, w) {
      var w: Write :| w.id == id && IndexedFrom(lines, w);
      ContextWrites(lines, w);
    }
  }

  /** Every identifier an entity carries under one of the seven identifier
      fields, as a `User` nickname, as a `File` location or in a nested chat
      message becomes a key of the entity index. */
  lemma EntityIdentifiersIndexed(lines: seq<Line>, n: nat, j: nat)
    requires n < |lines| && j < |EntitiesOf(lines[n])|
    ensures var e := EntitiesOf(lines[n])[j];
      && (forall i :: 0 <= i < |IdFields| && IdFields[i] in Fields(e) ==>
            AsStr(Fields(e)[IdFields[i]]) in BuildIndex(lines).ids)
      && (TypeOf(e) == "User" && "MailNickName" in Fields(e) ==> AsStr(Fields(e)["MailNickName"]) in BuildIndex(lines).ids)
      && (TypeOf(e) == "File" && "FileLocation" in Fields(e) ==> AsStr(Fields(e)["FileLocation"]) in BuildIndex(lines).ids)
      && (forall k :: 0 <= k < |MessagesOf(e)| && "ChatMessageId" in Fields(MessagesOf(e)[k]) ==>
            AsStr(Fields(MessagesOf(e)[k])["ChatMessageId"]) in BuildIndex(lines).ids)
  {
    var e := EntitiesOf(lines[n])[j];
    var ids := BuildIndex(lines).ids;
    forall i | 0 <= i < |IdFields| && IdFields[i] in Fields(e)
      ensures AsStr(Fields(e)[IdFields[i]]) in ids
    {
      ProducedIsKey(lines, n, j, Write(AsStr(Fields(e)[IdFields[i]]), EntityInfo(TypeOf(e), IdFields[i], n + 1, NoExtra), TypeOf(e)));
    }
    if TypeOf(e) == "User" && "MailNickName" in Fields(e) {
      ProducedIsKey(lines, n, j, Write(AsStr(Fields(e)["MailNickName"]),
        EntityInfo("User", "MailNickName", n + 1, DisplayName(Get(Fields(e), "DisplayName", Str("")))), "User"));
    }
    if TypeOf(e) == "File" && "FileLocation" in Fields(e) {
      ProducedIsKey(lines, n, j, Write(AsStr(Fields(e)["FileLocation"]),
        EntityInfo("File", "FileLocation", n + 1, FileName(Get(Fields(e), "FileName", Str("")))), "FilePath"));
    }
    forall k | 0 <= k < |MessagesOf(e)| && "ChatMessageId" in Fields(MessagesOf(e)[k])
      ensures AsStr(Fields(MessagesOf(e)[k])["ChatMessageId"]) in ids
    {
      ProducedIsKey(lines, n, j, Write(AsStr(Fields(MessagesOf(e)[k])["ChatMessageId"]),
        EntityInfo("ChatMessage", "ChatMessageId", n + 1, NoExtra), "ChatMessage"));
    }
  }

  /** A write produced by an entity of the file names a key of the index. */
  lemma ProducedIsKey(lines: seq<Line>, n: nat, j: nat, w: Write)
    requires n < |lines| && j < |EntitiesOf(lines[n])|
    requires Produces(EntitiesOf(lines[n])[j], n + 1, w)
    ensures w.id in BuildIndex(lines).ids
  {
    assert IndexedFrom(lines, w);
    EntityIndexKeys(lines, w.id);
  }

  /** The special cases of the metadata recorded for an entity's identifiers. */
  lemma EntityWriteRules(e: Json, line: nat, position: nat, w: Write)
    requires w in EntityWrites(line, position, e)
    ensures w.info.line == line
    ensures w.bucket == if w.info.idField == "FileLocation" then "FilePath" else w.info.entityType
    ensures w.info.entityType == TypeOf(e) || w.info == EntityInfo("ChatMessage", "ChatMessageId", line, NoExtra)
    ensures w.info.idField == "MailNickName" <==> w.info.extra.DisplayName?
    ensures w.info.idField == "MailNickName" ==>
      TypeOf(e) == "User" && w.info.extra.displayName == Get(Fields(e), "DisplayName", Str(""))
    ensures w.info.idField == "FileLocation" <==> w.info.extra.FileName?
    ensures w.info.idField == "FileLocation" ==>
      TypeOf(e) == "File" && w.info.extra.fileName == Get(Fields(e), "FileName", Str(""))
  {
    EntityWritesExactly(e, line, position, w);
  }

  /** A blank or malformed line adds nothing, and the lines after it are still
      processed under their physical line numbers. */
  lemma SkippedLine(a: seq<Line>, skipped: Line, b: seq<Line>)
    requires !skipped.Record?
    ensures LinesWrites(a + [skipped] + b, 1) == LinesWrites(a, 1) + LinesWrites(b, |a| + 2)
  {
    var at: nat := |a| + 1;
    ConcatMapAppend(LineWrites, (), a, [skipped], 1);
    NoWritesFromSkipped(skipped, at);
    ConcatMapAppend(LineWrites, (), a + [skipped], b, 1);
  }

  /** Iterating a `ChatMessages` string yields one-character strings, and no
      one-character string contains `ChatMessageId`, so none passes the test. */
  lemma CharacterNeverNamesMessage(c: char)
    ensures !Contains([c], "ChatMessageId")
  {
    assert [c][1..] == [];
  }

  /** `ChatMessages` given as a string or object contributes no write. */
  lemma NonListMessagesWriteNothing(e: Json, line: nat)
    requires "ChatMessages" in Fields(e) && !Fields(e)["ChatMessages"].Arr?
    ensures MessageWrites(MessagesOf(e), line) == []
  {
  }

  /** `ENTITIES_TO_USE` given as an empty string or object contributes no write. */
  lemma NonListEntitiesWriteNothing(l: Line, line: nat)
    requires l.Record? && "ENTITIES_TO_USE" in Fields(l.data) && !Fields(l.data)["ENTITIES_TO_USE"].Arr?
    ensures LineWrites((), line, l) == []
  {
  }

  lemma NoWritesFromSkipped(skipped: Line, at: nat)
    requires !skipped.Record?
    ensures LinesWrites([skipped], at) == []
  {
    assert LinesWrites([skipped], at) == ConcatMap(LineWrites, (), [], at) + LineWrites((), at, skipped);
  }
}
