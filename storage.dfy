/**
 * The context store: an insertion-ordered map from chat id to context in
 * memory, mirrored by one JSON file per chat in the storage directory.
 *
 * The directory is a map from file name to content. A file that cannot be
 * read or parsed, or whose JSON is not a context record, is `Malformed`.
 */
module Storage {
  import opened Wrappers
  import opened Decimal
  import opened OrderedMaps
  import opened Contexts

  datatype FileContent = Malformed | Json(record: Record)

  // ---------------------------------------------------------------------
  // File names

  /** `${chatId}.json`. */
  function FileName(chatId: ChatId): string
  {
    IntToString(chatId) + ".json"
  }

  /**
   * The chat id a file name announces: the name must match
   * `^(-?[0-9]+)\.json$`, and the id is `Number()` of the captured digits.
   */
  function ParseFileName(name: string): (r: Option<ChatId>)
    ensures r.Some? <==> |name| > 5 && name[|name| - 5..] == ".json" && IntegerText(name[..|name| - 5])
  {
    if |name| >= 5 && name[|name| - 5..] == ".json" then
      ParseIntegerPattern(name[..|name| - 5]);
      ParseInteger(name[..|name| - 5])
    else None
  }

  lemma FileNameRoundTrip(chatId: ChatId)
    ensures ParseFileName(FileName(chatId)) == Some(chatId)
  {
    var name := FileName(chatId);
    assert name[..|name| - 5] == IntToString(chatId);
    assert name[|name| - 5..] == ".json";
    IntToStringRoundTrip(chatId);
  }

  lemma FileNameInjective(a: ChatId, b: ChatId)
    requires FileName(a) == FileName(b)
    ensures a == b
  {
    FileNameRoundTrip(a);
    FileNameRoundTrip(b);
  }

  // ---------------------------------------------------------------------
  // Loading

  /**
   * What `loadContexts` takes from one directory entry: the record, when
   * the name is a context file name, the file holds a record and the
   * record's chat id is the one in the name; nothing otherwise.
   */
  function Admit(files: map<string, FileContent>, name: string): (r: Option<Record>)
    ensures r.Some? <==>
      ParseFileName(name).Some? && name in files && files[name].Json?
      && files[name].record.chatId == ParseFileName(name).value
    ensures r.Some? ==> files[name] == Json(r.value)
  {
    match ParseFileName(name)
    case None => None
    case Some(chatId) =>
      if name in files && files[name].Json? && files[name].record.chatId == chatId
      then Some(files[name].record) else None
  }

  /** A record written by `pushContext` is read back by `loadContexts`. */
  lemma PushedRecordReloads(files: map<string, FileContent>, record: Record)
    ensures Admit(files[FileName(record.chatId) := Json(record)], FileName(record.chatId)) == Some(record)
  {
    FileNameRoundTrip(record.chatId);
  }

  /**
   * The records `loadContexts` admits from the listing `names`, by chat id;
   * a later file with the same chat id replaces an earlier one.
   */
  function Admitted(files: map<string, FileContent>, names: seq<string>): (r: map<ChatId, Record>)
    ensures forall id :: id in r ==> r[id].chatId == id
  {
    if names == [] then map[]
    else
      var prior := Admitted(files, names[..|names| - 1]);
      match Admit(files, names[|names| - 1])
      case None => prior
      case Some(record) => prior[record.chatId := record]
  }

  lemma AdmittedStep(files: map<string, FileContent>, names: seq<string>, n: nat)
    requires n < |names|
    ensures Admit(files, names[n]).None? ==> Admitted(files, names[..n + 1]) == Admitted(files, names[..n])
    ensures Admit(files, names[n]).Some? ==>
      var record := Admit(files, names[n]).value;
      Admitted(files, names[..n + 1]) == Admitted(files, names[..n])[record.chatId := record]
  {
    assert names[..n + 1][..n] == names[..n];
  }

  /**
   * The key order of the contexts map after `loadContexts` over `names`,
   * starting from `keys`: a chat id admitted for the first time is appended,
   * one already present keeps its place.
   */
  function LoadedKeys(keys: seq<ChatId>, files: map<string, FileContent>, names: seq<string>): seq<ChatId>
  {
    if names == [] then keys
    else
      var prior := LoadedKeys(keys, files, names[..|names| - 1]);
      match Admit(files, names[|names| - 1])
      case None => prior
      case Some(record) => if record.chatId in prior then prior else prior + [record.chatId]
  }

  /**
   * Loading keeps the chats already in memory first, in their order, and
   * after them lists every loaded chat once.
   */
  lemma {:induction false} LoadedKeysExtend(keys: seq<ChatId>, files: map<string, FileContent>, names: seq<string>)
    ensures var r := LoadedKeys(keys, files, names);
      && |keys| <= |r| && r[..|keys|] == keys
      && (forall id :: id in r <==> id in keys || id in Admitted(files, names))
      && ((forall i, j :: 0 <= i < j < |keys| ==> keys[i] != keys[j]) ==>
            forall i, j :: 0 <= i < j < |r| ==> r[i] != r[j])
  {
    if names != [] {
      LoadedKeysExtend(keys, files, names[..|names| - 1]);
    }
  }

  /** A chat is loaded exactly when some entry of the listing admits it. */
  lemma {:induction false} AdmittedChats(files: map<string, FileContent>, names: seq<string>, id: ChatId)
    ensures id in Admitted(files, names) <==>
      exists i :: 0 <= i < |names| && Admit(files, names[i]).Some? && Admit(files, names[i]).value.chatId == id
  {
    if names != [] {
      var front := names[..|names| - 1];
      AdmittedChats(files, front, id);
      if id in Admitted(files, names) && id !in Admitted(files, front) {
        var last := |names| - 1;
        assert Admit(files, names[last]).Some? && Admit(files, names[last]).value.chatId == id;
      }
      if exists i :: 0 <= i < |names| && Admit(files, names[i]).Some? && Admit(files, names[i]).value.chatId == id {
        var i :| 0 <= i < |names| && Admit(files, names[i]).Some? && Admit(files, names[i]).value.chatId == id;
        if i < |names| - 1 {
          assert front[i] == names[i];
        }
      }
    }
  }

  // ---------------------------------------------------------------------
  // Selecting contexts

  ghost predicate ChatIdsDistinct(s: seq<Context>)
  {
    forall i, j :: 0 <= i < j < |s| ==> s[i].chatId != s[j].chatId
  }

  /** The contexts of `s` that satisfy `condition`, in their order in `s`. */
  function Select(s: seq<Context>, condition: Context -> bool): (r: seq<Context>)
    ensures |r| <= |s|
    ensures forall c :: c in r <==> c in s && condition(c)
    ensures ChatIdsDistinct(s) ==> ChatIdsDistinct(r)
  {
    if s == [] then []
    else
      var last := s[|s| - 1];
      var prior := Select(s[..|s| - 1], condition);
      assert ChatIdsDistinct(s) ==> forall c :: c in s[..|s| - 1] ==> c.chatId != last.chatId;
      prior + (if condition(last) then [last] else [])
  }

  /** Every context is stored under its own chat id. */
  ghost predicate IndexedByChatId(m: OrderedMap<ChatId, Context>)
  {
    forall id :: id in m.values ==> m.values[id].chatId == id
  }

  lemma StoredValues(m: OrderedMap<ChatId, Context>)
    requires IndexedByChatId(m)
    ensures ChatIdsDistinct(m.Values())
    ensures forall c :: c in m.Values() <==> c.chatId in m.values && m.values[c.chatId] == c
  {
    var vs := m.Values();
    assert forall i :: 0 <= i < |vs| ==> vs[i].chatId == m.keys[i];
    forall c: Context | c.chatId in m.values && m.values[c.chatId] == c
      ensures c in vs
    {
      var i :| 0 <= i < |m.keys| && m.keys[i] == c.chatId;
      assert vs[i] == c;
    }
  }

  // ---------------------------------------------------------------------
  // Keeping the directory in step with memory

  /** The chats whose context differs between two states of the map. */
  ghost function Changed(before: OrderedMap<ChatId, Context>, after: OrderedMap<ChatId, Context>): set<ChatId>
  {
    set id | id in before.values && id in after.values && after.values[id] != before.values[id]
  }

  /** The directory holds the current record of every chat in `ids`. */
  ghost predicate RecordsWritten(files: map<string, FileContent>, after: OrderedMap<ChatId, Context>, ids: set<ChatId>)
  {
    forall id :: id in ids && id in after.values ==>
      FileName(id) in files && files[FileName(id)] == Json(after.values[id].Stripped())
  }

  /** Every file that belongs to no chat in `ids` is as it was. */
  ghost predicate OthersKept(filesBefore: map<string, FileContent>, files: map<string, FileContent>, ids: set<ChatId>)
  {
    forall name :: (forall id :: id in ids ==> name != FileName(id)) ==>
      (name in files <==> name in filesBefore) && (name in files ==> files[name] == filesBefore[name])
  }

  /**
   * Going from `before` to `after`, the directory went from `filesBefore` to
   * `files` by rewriting the record of every changed context, and nothing else.
   */
  ghost predicate Mirrored(filesBefore: map<string, FileContent>, files: map<string, FileContent>,
                           before: OrderedMap<ChatId, Context>, after: OrderedMap<ChatId, Context>)
  {
    && RecordsWritten(files, after, Changed(before, after))
    && OthersKept(filesBefore, files, Changed(before, after))
  }

  lemma ChangedAfterPush(before: OrderedMap<ChatId, Context>, after: OrderedMap<ChatId, Context>,
                         next: OrderedMap<ChatId, Context>, r: Context)
    requires after.values.Keys == before.values.Keys
    requires r.chatId in before.values && r != before.values[r.chatId]
    requires next.values == after.values[r.chatId := r]
    ensures Changed(before, next) == Changed(before, after) + {r.chatId}
  {
  }

  lemma RecordsWrittenAfterPush(files: map<string, FileContent>, after: OrderedMap<ChatId, Context>,
                                next: OrderedMap<ChatId, Context>, ids: set<ChatId>, r: Context)
    requires RecordsWritten(files, after, ids)
    requires next.values == after.values[r.chatId := r]
    ensures RecordsWritten(files[FileName(r.chatId) := Json(r.Stripped())], next, ids + {r.chatId})
  {
    forall id | id in ids && id != r.chatId && FileName(id) == FileName(r.chatId)
      ensures false
    {
      FileNameInjective(id, r.chatId);
    }
  }

  lemma OthersKeptAfterPush(filesBefore: map<string, FileContent>, files: map<string, FileContent>,
                            ids: set<ChatId>, r: Context)
    requires OthersKept(filesBefore, files, ids)
    ensures OthersKept(filesBefore, files[FileName(r.chatId) := Json(r.Stripped())], ids + {r.chatId})
  {
  }

  /** Storing twice under one chat id keeps only the second value. */
  lemma StoreTwice<K, V>(m: map<K, V>, k: K, first: V, second: V)
    ensures m[k := first][k := second] == m[k := second]
  {
  }

  /** Pushing a context that differs from its original keeps the directory mirrored. */
  lemma MirroredAfterPush(filesBefore: map<string, FileContent>, files: map<string, FileContent>,
                          before: OrderedMap<ChatId, Context>, after: OrderedMap<ChatId, Context>,
                          next: OrderedMap<ChatId, Context>, r: Context)
    requires Mirrored(filesBefore, files, before, after)
    requires after.values.Keys == before.values.Keys
    requires r.chatId in before.values && r != before.values[r.chatId]
    requires next.values == after.values[r.chatId := r]
    ensures Mirrored(filesBefore, files[FileName(r.chatId) := Json(r.Stripped())], before, next)
  {
    ChangedAfterPush(before, after, next, r);
    RecordsWrittenAfterPush(files, after, next, Changed(before, after), r);
    OthersKeptAfterPush(filesBefore, files, Changed(before, after), r);
  }

  /**
   * The directory after a handler is done with a chat whose context went
   * from `stored` to `updated`: the handlers push a context exactly when
   * they changed it, so the chat's record is rewritten then and only then.
   */
  function Persist(files: map<string, FileContent>, stored: Context, updated: Context): map<string, FileContent>
  {
    if updated == stored then files else files[FileName(updated.chatId) := Json(updated.Stripped())]
  }

  /** A second push for the same chat leaves only its latest record behind. */
  lemma PersistAgain(files: map<string, FileContent>, stored: Context, first: Context, second: Context)
    requires first.chatId == stored.chatId && second.chatId == stored.chatId && second != stored
    ensures Persist(files, stored, first)[FileName(second.chatId) := Json(second.Stripped())] == Persist(files, stored, second)
  {
    StoreTwice(files, FileName(second.chatId), Json(first.Stripped()), Json(second.Stripped()));
  }

  /** Persisting one more chat that had not changed yet keeps the directory mirrored. */
  lemma MirroredAfterPersist(filesBefore: map<string, FileContent>, files: map<string, FileContent>,
                             before: OrderedMap<ChatId, Context>, after: OrderedMap<ChatId, Context>,
                             next: OrderedMap<ChatId, Context>, r: Context)
    requires Mirrored(filesBefore, files, before, after)
    requires after.values.Keys == before.values.Keys
    requires r.chatId in before.values && after.values[r.chatId] == before.values[r.chatId]
    requires next.values == after.values[r.chatId := r]
    ensures Mirrored(filesBefore, Persist(files, before.values[r.chatId], r), before, next)
  {
    if r == before.values[r.chatId] {
      assert next.values == after.values;
    } else {
      MirroredAfterPush(filesBefore, files, before, after, next, r);
    }
  }

  /**
   * Part way through `loadContexts`: the records in `loaded` have become
   * contexts with mutexes numbered from `low` up to `high`, and every other
   * context is as it was.
   */
  ghost predicate LoadedInto(before: map<ChatId, Context>, after: map<ChatId, Context>, loaded: map<ChatId, Record>,
                             low: nat, high: nat)
  {
    && low <= high
    && after.Keys == before.Keys + loaded.Keys
    && (forall id :: id in loaded ==>
          && after[id].Stripped() == loaded[id]
          && after[id].mutex.Some? && low <= after[id].mutex.value < high)
    && (forall id, id' :: id in loaded && id' in loaded && id != id' ==> after[id].mutex != after[id'].mutex)
    && (forall id :: id in before && id !in loaded ==> after[id] == before[id])
  }

  lemma LoadedStep(before: map<ChatId, Context>, after: map<ChatId, Context>, loaded: map<ChatId, Record>,
                   low: nat, high: nat, record: Record)
    requires LoadedInto(before, after, loaded, low, high)
    ensures LoadedInto(before,
                       after[record.chatId := Loaded(record, high)],
                       loaded[record.chatId := record], low, high + 1)
  {
  }

  /** The context `loadContexts` makes of a record, with mutex number `mutex`. */
  function Loaded(record: Record, mutex: MutexId): (c: Context)
    ensures c.Stripped() == record && c.mutex == Some(mutex)
  {
    Context(record.chatId, record.salt, record.sequence, record.proposal, Some(mutex))
  }

  /**
   * `loadContexts` has gone through the first `n` names, starting from
   * `before` with mutex number `low` and reaching `after` and `high`.
   */
  ghost predicate LoadState(before: OrderedMap<ChatId, Context>, after: OrderedMap<ChatId, Context>,
                            files: map<string, FileContent>, names: seq<string>, n: nat, low: nat, high: nat)
    requires n <= |names|
  {
    && after.keys == LoadedKeys(before.keys, files, names[..n])
    && LoadedInto(before.values, after.values, Admitted(files, names[..n]), low, high)
  }

  lemma LoadStateStep(before: OrderedMap<ChatId, Context>, after: OrderedMap<ChatId, Context>,
                      files: map<string, FileContent>, names: seq<string>, n: nat, low: nat, high: nat)
    requires n < |names| && LoadState(before, after, files, names, n, low, high)
    ensures Admit(files, names[n]).None? ==> LoadState(before, after, files, names, n + 1, low, high)
    ensures Admit(files, names[n]).Some? ==>
      var record := Admit(files, names[n]).value;
      LoadState(before, after.Set(record.chatId, Loaded(record, high)), files, names, n + 1, low, high + 1)
  {
    AdmittedStep(files, names, n);
    assert names[..n + 1][..n] == names[..n];
    match Admit(files, names[n])
    case None =>
    case Some(record) =>
      LoadedStep(before.values, after.values, Admitted(files, names[..n]), low, high, record);
  }

  // ---------------------------------------------------------------------
  // The store

  class ContextStore {
    /** The `contexts` map of the storage module. */
    var contexts: OrderedMap<ChatId, Context>
    /** The storage directory. */
    var files: map<string, FileContent>
    /** How many mutexes have been created; the next one gets this id. */
    var mutexCount: nat

    /** Contexts are stored under their chat ids and every one owns a mutex. */
    ghost predicate Valid()
      reads this
    {
      && IndexedByChatId(contexts)
      && forall id :: id in contexts.values ==> contexts.values[id].mutex.Some?
    }

    /** An empty store over the given storage directory. */
    constructor(directory: map<string, FileContent>)
      ensures Valid()
      ensures contexts.keys == [] && files == directory && mutexCount == 0
    {
      contexts := Empty();
      files := directory;
      mutexCount := 0;
    }

    /**
     * `loadContexts()` over the directory listing `names`: each admitted
     * record becomes a context with a fresh mutex; nothing is written.
     */
    method LoadContexts(names: seq<string>)
      requires Valid()
      modifies this
      ensures Valid()
      ensures files == old(files)
      ensures mutexCount >= old(mutexCount)
      ensures contexts.values.Keys == old(contexts.values.Keys) + Admitted(files, names).Keys
      ensures forall id :: id in Admitted(files, names) ==>
        && contexts.values[id].Stripped() == Admitted(files, names)[id]
        && old(mutexCount) <= contexts.values[id].mutex.value < mutexCount
      ensures forall id, id' :: id in Admitted(files, names) && id' in Admitted(files, names) && id != id' ==>
        contexts.values[id].mutex != contexts.values[id'].mutex
      ensures forall id :: id in old(contexts.values) && id !in Admitted(files, names) ==>
        contexts.values[id] == old(contexts.values[id])
      ensures contexts.keys == LoadedKeys(old(contexts.keys), files, names)
    {
      var i := 0;
      while i < |names|
        invariant 0 <= i <= |names|
        invariant Valid() && files == old(files)
        invariant LoadState(old(contexts), contexts, files, names, i, old(mutexCount), mutexCount)
      {
        LoadStateStep(old(contexts), contexts, files, names, i, old(mutexCount), mutexCount);
        match Admit(files, names[i]) {
          case None =>
          case Some(record) =>
            contexts := contexts.Set(record.chatId, Loaded(record, mutexCount));
            mutexCount := mutexCount + 1;
        }
        i := i + 1;
      }
      assert names[..i] == names;
    }

    /**
     * `pushContext(context)`: writes the record, gives the context a new
     * mutex if it has none, stores it under its chat id and returns it.
     */
    method PushContext(context: Context) returns (r: Context)
      requires Valid()
      modifies this
      ensures Valid()
      ensures r.Stripped() == context.Stripped() && r.mutex.Some?
      ensures context.mutex.Some? ==> r == context && mutexCount == old(mutexCount)
      ensures context.mutex.None? ==> r.mutex == Some(old(mutexCount)) && mutexCount == old(mutexCount) + 1
      ensures contexts == old(contexts).Set(context.chatId, r)
      ensures files == old(files)[FileName(context.chatId) := Json(context.Stripped())]
    {
      files := files[FileName(context.chatId) := Json(context.Stripped())];
      r := context;
      if context.mutex.None? {
        r := context.(mutex := Some(mutexCount));
        mutexCount := mutexCount + 1;
      }
      contexts := contexts.Set(context.chatId, r);
    }

    /** `pullContext(chatId)`. */
    method PullContext(chatId: ChatId) returns (r: Option<Context>)
      requires Valid()
      ensures r.Some? <==> chatId in contexts.values
      ensures r.Some? ==> r.value == contexts.values[chatId] && r.value.chatId == chatId && r.value.mutex.Some?
    {
      if chatId in contexts.values {
        r := Some(contexts.values[chatId]);
      } else {
        r := None;
      }
    }

    /**
     * `findContexts(condition)`: the stored contexts that satisfy the
     * condition, in insertion order; none when no condition is given.
     */
    method FindContexts(condition: Option<Context -> bool>) returns (results: seq<Context>)
      requires Valid()
      ensures condition.None? ==> results == []
      ensures condition.Some? ==> results == Select(contexts.Values(), condition.value)
      ensures ChatIdsDistinct(results)
      ensures forall c :: c in results ==> c.chatId in contexts.values && contexts.values[c.chatId] == c
      ensures condition.Some? ==> forall id :: id in contexts.values && condition.value(contexts.values[id]) ==>
        contexts.values[id] in results
    {
      results := [];
      if condition.None? {
        return;
      }
      var all := contexts.Values();
      var i := 0;
      while i < |all|
        invariant 0 <= i <= |all|
        invariant results == Select(all[..i], condition.value)
      {
        assert all[..i + 1][..i] == all[..i];
        if condition.value(all[i]) {
          results := results + [all[i]];
        }
        i := i + 1;
      }
      assert all[..i] == all;
      StoredValues(contexts);
    }

    /** `deleteContext(context)`: removes the file and the entry for its chat. */
    method DeleteContext(context: Context)
      requires Valid()
      modifies this
      ensures Valid()
      ensures contexts == old(contexts).Delete(context.chatId)
      ensures files == old(files) - {FileName(context.chatId)}
      ensures mutexCount == old(mutexCount)
    {
      files := files - {FileName(context.chatId)};
      contexts := contexts.Delete(context.chatId);
    }
  }
}
