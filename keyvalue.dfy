/**
 The external key-value store the service debits against, reduced to what the
 debit protocol relies on: GET, unconditional SET, and WATCH followed by a
 MULTI/EXEC transaction that commits only if the watched key was not written
 since the watch began.

 A watch is modelled by a per-key version counter: every write of a key bumps
 its version, a watch records the version it saw, and EXEC compares the two.
 */
module KeyValue {

  datatype Option<T> = None | Some(value: T)

  /** A snapshot of the store: the integer held under each key that exists,
      and how many times each key has been written (0 for a key never written). */
  datatype Db = Db(values: map<string, int>, versions: map<string, nat>)

  /** GET: the value under `key`, or None when the key does not exist. */
  function Lookup(db: Db, key: string): Option<int>
  {
    if key in db.values then Some(db.values[key]) else None
  }

  /** The number of writes `key` has seen; what a WATCH records. */
  function VersionOf(db: Db, key: string): nat
  {
    if key in db.versions then db.versions[key] else 0
  }

  /** SET: overwrite `key` whatever it held; the write invalidates every watch on `key`. */
  function Put(db: Db, key: string, value: int): (r: Db)
    ensures Lookup(r, key) == Some(value)
    ensures VersionOf(r, key) == VersionOf(db, key) + 1
    ensures forall k :: k != key ==> Lookup(r, k) == Lookup(db, k) && VersionOf(r, k) == VersionOf(db, k)
  {
    Db(db.values[key := value], db.versions[key := VersionOf(db, key) + 1])
  }

  /** A SET issued by some other client of the store. */
  datatype Write = Write(key: string, value: int)

  predicate Writes(w: Option<Write>, key: string)
  {
    w.Some? && w.value.key == key
  }

  /** The store after another client's optional SET. */
  function Apply(db: Db, w: Option<Write>): (r: Db)
    ensures w.Some? ==> Lookup(r, w.value.key) == Some(w.value.value)
    ensures forall k :: VersionOf(r, k) >= VersionOf(db, k)
    ensures forall k :: Writes(w, k) ==> VersionOf(r, k) > VersionOf(db, k)
    ensures forall k :: !Writes(w, k) ==> Lookup(r, k) == Lookup(db, k) && VersionOf(r, k) == VersionOf(db, k)
  {
    if w.Some? then Put(db, w.value.key, w.value.value) else db
  }

  /** What a client connection remembers after WATCH: the key and the version it saw. */
  datatype WatchToken = WatchToken(key: string, version: nat)

  /** MULTI / SET key value / EXEC on a connection holding watch `w`:
      the SET is applied exactly when the watched key was not written since the watch. */
  function Exec(db: Db, w: WatchToken, key: string, value: int): (r: (Db, bool))
    ensures r.1 <==> VersionOf(db, w.key) == w.version
    ensures r.1 ==> Lookup(r.0, key) == Some(value) && VersionOf(r.0, key) > VersionOf(db, key)
    ensures !r.1 ==> r.0 == db
    ensures forall k :: k != key ==> Lookup(r.0, k) == Lookup(db, k) && VersionOf(r.0, k) == VersionOf(db, k)
  {
    if VersionOf(db, w.key) == w.version then (Put(db, key, value), true) else (db, false)
  }

  /** The shared store, updated in place by every client. */
  class Store {
    var values: map<string, int>
    var versions: map<string, nat>

    /** The current contents as a value. */
    function State(): Db
      reads this
    {
      Db(values, versions)
    }

    constructor (db: Db)
      ensures State() == db
    {
      values := db.values;
      versions := db.versions;
    }

    method Get(key: string) returns (v: Option<int>)
      ensures v == Lookup(State(), key)
    {
      if key in values {
        v := Some(values[key]);
      } else {
        v := None;
      }
    }

    method Set(key: string, value: int)
      modifies this
      ensures State() == Put(old(State()), key, value)
    {
      var version := if key in versions then versions[key] else 0;
      values := values[key := value];
      versions := versions[key := version + 1];
    }

    /** WATCH: changes nothing in the store, only what the calling connection remembers. */
    method Watch(key: string) returns (w: WatchToken)
      ensures w.key == key && w.version == VersionOf(State(), key)
    {
      var version := if key in versions then versions[key] else 0;
      w := WatchToken(key, version);
    }

    /** MULTI / SET / EXEC; `committed` is false where the client raises a watch error. */
    method ExecSet(w: WatchToken, key: string, value: int) returns (committed: bool)
      modifies this
      ensures (State(), committed) == Exec(old(State()), w, key, value)
    {
      var version := if w.key in versions then versions[w.key] else 0;
      committed := version == w.version;
      if committed {
        Set(key, value);
      }
    }

    /** Another client's SET, run at a point where the scheduler lets it in. */
    method RivalWrite(w: Option<Write>)
      modifies this
      ensures State() == Apply(old(State()), w)
    {
      if w.Some? {
        Set(w.value.key, w.value.value);
      }
    }
  }
}
