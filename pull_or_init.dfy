/** Pull-or-initialize resolution.

    Loading a root value either goes through the type's on-call initializer,
    when the type has one, or through the fallback that treats a missing or
    undecodable entry as fatal.  The choice is made per type at compile time;
    here the capability is an explicit optional initializer.  Both paths take
    the store by value and return only the loaded value: they read one key and
    never write. */
module PullOrInit {

  import opened Wrappers
  import opened Render
  import opened Store

  /** What `OnCallInitializer` gives a type: its `Default` value and the
      `initialize` hook, which updates a value in place (here: returns the
      updated value). */
  datatype Initializer<!T> = Initializer(default: T, initialize: T -> T)

  /** The value a fresh instance gets: `Default` followed by `initialize`. */
  function Fresh<T>(init: Initializer<T>): T {
    init.initialize(init.default)
  }

  /** `PullOrInit::pull_or_init` for a type with an initializer: the stored
      value if there is one that decodes, a freshly initialized one otherwise. */
  function PullOrInitWith<T>(init: Initializer<T>, cells: map<StorageKey, Entry<T>>, key: StorageKey): (r: T)
    ensures key in cells && cells[key].Stored? ==> r == cells[key].value
    ensures key !in cells || cells[key].Corrupt? ==> r == init.initialize(init.default)
  {
    match ReadEntry(cells, key)
    case Absent => Fresh(init)
    case DecodeError => Fresh(init)
    case Found(value) => value
  }

  /** `PullOrInitFallback::pull_or_init` for a type without one: the stored
      value, or a fatal error that says which way the read failed. */
  function PullOrInitFallback<T>(cells: map<StorageKey, Entry<T>>, key: StorageKey): (r: Outcome<T>)
    ensures r.Value? <==> key in cells && cells[key].Stored?
    ensures r.Value? ==> r.value == cells[key].value
    ensures r == Panic("storage entry was empty") <==> key !in cells
    ensures r == Panic("could not properly decode storage entry") <==> key in cells && cells[key].Corrupt?
  {
    match ReadEntry(cells, key)
    case Found(value) => Value(value)
    case Absent => Panic(EmptyEntryMessage)
    case DecodeError => Panic(DecodeFailureMessage)
  }

  /** The `pull_or_init!` macro: the initializer-aware path whenever the type
      has the capability, the fallback otherwise. */
  function PullOrInitDispatch<T>(capability: Option<Initializer<T>>, cells: map<StorageKey, Entry<T>>, key: StorageKey)
    : (r: Outcome<T>)
    ensures capability.Some? ==> r == Value(PullOrInitWith(capability.value, cells, key))
    ensures capability.None? ==> r == PullOrInitFallback(cells, key)
  {
    match capability
    case Some(init) => Value(PullOrInitWith(init, cells, key))
    case None => PullOrInitFallback(cells, key)
  }

  // ---------------------------------------------------------------------------
  // Properties of the resolution

  /** With an initializer, an entry that fails to decode is treated exactly
      like no entry at all. */
  lemma DecodeFailureIsAbsence<T>(init: Initializer<T>, cells: map<StorageKey, Entry<T>>, key: StorageKey)
    ensures PullOrInitWith(init, cells[key := Corrupt], key) == PullOrInitWith(init, cells - {key}, key)
    ensures PullOrInitWith(init, cells - {key}, key) == Fresh(init)
  {
  }

  /** With an initializer, a stored value is returned as it is: the
      initializer has no say in it. */
  lemma StoredValueWins<T>(init: Initializer<T>, other: Initializer<T>, cells: map<StorageKey, Entry<T>>, key: StorageKey, v: T)
    requires key in cells && cells[key] == Stored(v)
    ensures PullOrInitWith(init, cells, key) == v
    ensures PullOrInitWith(init, cells, key) == PullOrInitWith(other, cells, key)
  {
  }

  /** The initializer-aware path never aborts; the fallback aborts exactly
      when there is no value to load. */
  lemma OnlyFallbackAborts<T>(capability: Option<Initializer<T>>, cells: map<StorageKey, Entry<T>>, key: StorageKey)
    ensures PullOrInitDispatch(capability, cells, key).Panic? <==> capability.None? && !(key in cells && cells[key].Stored?)
  {
  }

  /** Both paths agree whenever a decodable value is stored. */
  lemma PathsAgreeOnStoredValue<T>(init: Initializer<T>, cells: map<StorageKey, Entry<T>>, key: StorageKey)
    requires key in cells && cells[key].Stored?
    ensures PullOrInitDispatch(Some(init), cells, key) == PullOrInitDispatch(None, cells, key)
  {
  }

  /** Loading reads only the entry at the key: entries at other keys do not
      change the result. */
  lemma ReadsOnlyItsKey<T>(capability: Option<Initializer<T>>, cells: map<StorageKey, Entry<T>>, other: map<StorageKey, Entry<T>>, key: StorageKey)
    requires (key in cells <==> key in other) && (key in cells ==> cells[key] == other[key])
    ensures PullOrInitDispatch(capability, cells, key) == PullOrInitDispatch(capability, other, key)
  {
  }

  // ---------------------------------------------------------------------------
  // The unit tests

  /** The test type: a `u32` newtype whose initializer sets it to 123. */
  datatype U32 = U32(field0: nat)

  const U32Initializer: Initializer<U32> := Initializer(U32(0), (_: U32) => U32(123))

  const TestKey: StorageKey := 111

  /** `init_works`: nothing stored, so the initializer runs. */
  lemma InitWorks()
    ensures PullOrInitDispatch(Some(U32Initializer), map[], TestKey) == Value(U32(123))
  {
  }

  /** `pull_or_init_works`: the stored 456 wins over the initializer. */
  lemma PullOrInitWorks()
    ensures PullOrInitDispatch(Some(U32Initializer), map[TestKey := Stored(U32(456))], TestKey) == Value(U32(456))
  {
  }

  /** `pull_or_init_fails`: a plain `u32` has no initializer, so an empty
      entry is fatal. */
  lemma PullOrInitFails()
    ensures PullOrInitDispatch<nat>(None, map[], TestKey) == Panic("storage entry was empty")
  {
  }

  /** `pull_works`: a plain `u32` that is stored loads as it is. */
  lemma PullWorks()
    ensures PullOrInitDispatch<nat>(None, map[TestKey := Stored(321)], TestKey) == Value(321)
  {
  }
}
