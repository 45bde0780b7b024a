/** The contract store and the key cursor, as the persistence code sees them.

    The store is a sparse map from 32-bit keys to entries.  An entry is either
    a value that decodes as the type being read or bytes that do not
    (`Corrupt`); the encoding itself is not modelled.  A read distinguishes
    the three outcomes the store interface reports: nothing stored, a decode
    failure, or a value.  A fatal error aborts the whole call with a message;
    it is modelled as the `Panic` outcome. */
module Store {

  import opened Render

  datatype Entry<T> = Stored(value: T) | Corrupt

  /** `get_contract_storage`: `Ok(None)`, `Err(_)` or `Ok(Some(value))`. */
  datatype Read<T> = Absent | DecodeError | Found(value: T)

  /** The result of an operation that may abort with a message. */
  datatype Outcome<T> = Value(value: T) | Panic(message: string)

  const EmptyEntryMessage := "storage entry was empty"
  const DecodeFailureMessage := "could not properly decode storage entry"

  /** Reading one key of the store. */
  function ReadEntry<T>(cells: map<StorageKey, Entry<T>>, key: StorageKey): (r: Read<T>)
    ensures r.Absent? <==> key !in cells
    ensures r.DecodeError? <==> key in cells && cells[key].Corrupt?
    ensures key in cells && cells[key].Stored? ==> r == Found(cells[key].value)
  {
    if key !in cells then Absent
    else match cells[key]
      case Corrupt => DecodeError
      case Stored(v) => Found(v)
  }

  // ---------------------------------------------------------------------------
  // Key arithmetic

  /** The key `n` slots after `k`, wrapping around at 2^32. */
  function Advance(k: StorageKey, n: nat): (r: StorageKey)
    ensures n < KeyModulus ==> (r == k + n || r == k + n - KeyModulus)
  {
    (k + n) % KeyModulus
  }

  /** Advancing twice is advancing by the sum. */
  lemma AdvanceAdd(k: StorageKey, m: nat, n: nat)
    ensures Advance(Advance(k, m), n) == Advance(k, m + n)
  {
    var a := k + m;
    assert (a % KeyModulus + n) % KeyModulus == (a + n) % KeyModulus by {
      var q := a / KeyModulus;
      assert a == q * KeyModulus + a % KeyModulus;
      assert a + n == q * KeyModulus + (a % KeyModulus + n);
      ModShift(a % KeyModulus + n, q);
    }
  }

  lemma ModShift(x: nat, q: int)
    requires q >= 0
    ensures (q * KeyModulus + x) % KeyModulus == x % KeyModulus
  {
    if q > 0 {
      ModShift(x, q - 1);
      assert q * KeyModulus + x == (q - 1) * KeyModulus + x + KeyModulus;
    }
  }

  /** Fewer than 2^32 consecutive slots never wrap onto each other. */
  lemma AdvanceDistinct(k: StorageKey, i: nat, j: nat)
    requires i < j < KeyModulus
    ensures Advance(k, i) != Advance(k, j)
  {
  }

  lemma AdvanceZero(k: StorageKey)
    ensures Advance(k, 0) == k
  {
  }

  // ---------------------------------------------------------------------------
  // The store and the cursor as objects the persistence calls update

  /** The contract storage: a map from keys to entries that `set` and `clear`
      update in place. */
  class Storage<T> {
    var cells: map<StorageKey, Entry<T>>

    constructor(cells: map<StorageKey, Entry<T>>)
      ensures this.cells == cells
    {
      this.cells := cells;
    }

    /** `get_contract_storage(key)`: reads and changes nothing. */
    method Get(key: StorageKey) returns (r: Read<T>)
      ensures r == ReadEntry(cells, key)
    {
      if key !in cells {
        r := Absent;
      } else {
        match cells[key]
        case Corrupt => r := DecodeError;
        case Stored(v) => r := Found(v);
      }
    }

    /** `set_contract_storage(key, value)`. */
    method Set(key: StorageKey, value: T)
      modifies this
      ensures cells == old(cells)[key := Stored(value)]
    {
      cells := cells[key := Stored(value)];
    }

    /** `clear_contract_storage(key)`. */
    method Clear(key: StorageKey)
      modifies this
      ensures cells == old(cells) - {key}
    {
      cells := cells - {key};
    }
  }

  /** The cursor that threads through a spread persistence call: it hands out
      the current key and moves past the slots a field occupies. */
  class KeyPtr {
    var key: StorageKey

    constructor(root: StorageKey)
      ensures key == root
    {
      key := root;
    }

    /** `key()`: the current key; the cursor does not move. */
    function Key(): (k: StorageKey)
      reads this
      ensures k == key
    {
      key
    }

    /** `next_for::<F>()` for a field of footprint `n`: the key where the field
        starts; the cursor moves past the field. */
    method NextFor(n: nat) returns (k: StorageKey)
      modifies this
      ensures k == old(key) && key == Advance(old(key), n)
    {
      k := key;
      key := Advance(key, n);
    }
  }
}
