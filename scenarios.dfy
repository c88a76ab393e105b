/**
 The two scenarios of backend/test.ts, stated over the model of app.ts.

 The concurrent one runs the interleaving that makes a lost update possible in
 a naive read-then-write debit: every connection watches and reads the balance
 first, and only then do they commit, one after another.
 */
module Scenarios {
  import opened KeyValue
  import opened App

  /** WATCH then GET of the account's balance on a fresh connection. */
  function Begin(db: Db, account: string): (s: Session)
    ensures s.watch.key == BalanceKey(account) && VersionOf(db, s.watch.key) == s.watch.version
    ensures s.balance.Int? <==> BalanceKey(account) in db.values
    ensures s.balance.Int? ==> s.balance.value == db.values[BalanceKey(account)]
  {
    var key := BalanceKey(account);
    Session(WatchToken(key, VersionOf(db, key)), ParseBalance(Lookup(db, key)))
  }

  /** Connections that have each watched and read, committing in turn. */
  function FinishAll(db: Db, sessions: seq<Session>, charges: int): (res: (Db, seq<Outcome>))
    ensures |res.1| == |sessions|
    // only the watched keys can change
    ensures forall k :: (forall j :: 0 <= j < |sessions| ==> sessions[j].watch.key != k) ==>
              Lookup(res.0, k) == Lookup(db, k) && VersionOf(res.0, k) == VersionOf(db, k)
    decreases |sessions|
  {
    if sessions == [] then
      (db, [])
    else
      var (db1, o) := Finish(db, sessions[0], charges);
      var (db2, outs) := FinishAll(db1, sessions[1..], charges);
      (db2, [o] + outs)
  }

  /** An undisturbed `charge` is exactly a fresh session's WATCH and GET followed by its commit. */
  lemma QuietAttemptIsBeginThenFinish(db: Db, account: string, charges: int)
    ensures Finish(db, Begin(db, account), charges) == Attempt(db, account, charges, Quiet)
  {
  }

  predicate Authorized(o: Outcome)
  {
    o.Returned? && o.result.isAuthorized
  }

  function CountAuthorized(outs: seq<Outcome>): nat
  {
    if outs == [] then 0 else (if Authorized(outs[0]) then 1 else 0) + CountAuthorized(outs[1..])
  }

  /** Connections whose watch is older than the key's last write never commit: each
      one hits a watch error, or declines when its read balance was insufficient,
      and the store is left exactly as it was. */
  lemma {:induction false} StaleWatchesNeverCommit(db: Db, sessions: seq<Session>, charges: int)
    requires forall j :: 0 <= j < |sessions| ==> sessions[j].watch.version < VersionOf(db, sessions[j].watch.key)
    ensures var (db', outs) := FinishAll(db, sessions, charges);
            db' == db && CountAuthorized(outs) == 0 &&
            forall j :: 0 <= j < |outs| ==>
              outs[j] == if AtLeast(sessions[j].balance, charges) then Threw(WatchError)
                         else Returned(ChargeResult(false, sessions[j].balance, 0))
  {
    if sessions != [] {
      StaleWatchesNeverCommit(db, sessions[1..], charges);
      var (db2, outs) := FinishAll(db, sessions[1..], charges);
      var o := Finish(db, sessions[0], charges).1;
      assert FinishAll(db, sessions, charges) == (db2, [o] + outs);
      assert ([o] + outs)[1..] == outs;
    }
  }

  /** Of connections that all watched the same version of a key, at most one commits. */
  lemma {:induction false} AtMostOneCommits(db: Db, sessions: seq<Session>, w: WatchToken, charges: int)
    requires w.version <= VersionOf(db, w.key)
    requires forall j :: 0 <= j < |sessions| ==> sessions[j].watch == w
    ensures CountAuthorized(FinishAll(db, sessions, charges).1) <= 1
  {
    if sessions != [] {
      var (db1, o) := Finish(db, sessions[0], charges);
      var (db2, outs) := FinishAll(db1, sessions[1..], charges);
      assert FinishAll(db, sessions, charges) == (db2, [o] + outs);
      assert ([o] + outs)[1..] == outs;
      if Authorized(o) {
        StaleWatchesNeverCommit(db1, sessions[1..], charges);
      } else {
        AtMostOneCommits(db1, sessions[1..], w, charges);
      }
    }
  }

  /** `n` connections that watched and read the same sufficient balance `b`: the first to
      commit is authorized with `b - charges` left, and every later one hits a watch error. */
  lemma FirstCommitWins(db: Db, account: string, charges: int, n: nat)
    requires n >= 1
    requires AtLeast(ParseBalance(Lookup(db, BalanceKey(account))), charges)
    ensures var b := Lookup(db, BalanceKey(account)).value;
            var (db', outs) := FinishAll(db, seq(n, _ => Begin(db, account)), charges);
            db' == Put(db, BalanceKey(account), b - charges) &&
            outs[0] == Returned(ChargeResult(true, Int(b - charges), charges)) &&
            (forall j :: 1 <= j < n ==> outs[j] == Threw(WatchError)) &&
            CountAuthorized(outs) == 1
  {
    var sessions := seq(n, _ => Begin(db, account));
    var (db1, o) := Finish(db, sessions[0], charges);
    StaleWatchesNeverCommit(db1, sessions[1..], charges);
    var (db2, outs) := FinishAll(db1, sessions[1..], charges);
    assert FinishAll(db, sessions, charges) == (db2, [o] + outs);
    assert ([o] + outs)[1..] == outs;
  }

  /** bugTest: after a reset, ten concurrent 100-unit charges yield exactly one authorized
      result `{true, 0, 100}`; a conflicted one that `chargeSafe` tries again on the store
      they leave is declined with nothing left. */
  lemma TenChargesAfterReset(db: Db)
    ensures var db0 := AfterReset(db, "account");
            var (db1, outs) := FinishAll(db0, seq(10, _ => Begin(db0, "account")), 100);
            CountAuthorized(outs) == 1 &&
            outs[0] == Returned(ChargeResult(true, Int(0), 100)) &&
            (forall j :: 1 <= j < 10 ==> outs[j] == Threw(WatchError)) &&
            Retry(db1, "account", 100, 2000, [Quiet], [2000], 0) == (db1, Returned(ChargeResult(false, Int(0), 0)))
  {
    FirstCommitWins(AfterReset(db, "account"), "account", 100, 10);
  }

  /** A `chargeSafe` whose first attempt is undisturbed debits a sufficient balance at once. */
  lemma UndisturbedChargeSafe(db: Db, account: string, charges: int, timeout: int)
    requires AtLeast(ParseBalance(Lookup(db, BalanceKey(account))), charges)
    ensures var b := Lookup(db, BalanceKey(account)).value;
            Retry(db, account, charges, timeout, [Quiet], [timeout], 0) ==
              (Put(db, BalanceKey(account), b - charges), Returned(ChargeResult(true, Int(b - charges), charges)))
  {
  }

  /** basicLatencyTest: a reset, then five default charges of 10 through `chargeSafe`
      with its 2000 ms timeout and no rival writes; each is authorized and leaves ten less. */
  method BasicSequence(store: Store) returns (results: seq<Outcome>)
    modifies store
    ensures results == [Returned(ChargeResult(true, Int(90), 10)), Returned(ChargeResult(true, Int(80), 10)),
                        Returned(ChargeResult(true, Int(70), 10)), Returned(ChargeResult(true, Int(60), 10)),
                        Returned(ChargeResult(true, Int(50), 10))]
    ensures Lookup(store.State(), BalanceKey("account")) == Some(50)
  {
    var _ := Reset(store, "account", false);
    UndisturbedChargeSafe(store.State(), "account", 10, 2000);
    var o1 := ChargeSafe(store, "account", 10, 2000, [Quiet], [2000]);
    UndisturbedChargeSafe(store.State(), "account", 10, 2000);
    var o2 := ChargeSafe(store, "account", 10, 2000, [Quiet], [2000]);
    UndisturbedChargeSafe(store.State(), "account", 10, 2000);
    var o3 := ChargeSafe(store, "account", 10, 2000, [Quiet], [2000]);
    UndisturbedChargeSafe(store.State(), "account", 10, 2000);
    var o4 := ChargeSafe(store, "account", 10, 2000, [Quiet], [2000]);
    UndisturbedChargeSafe(store.State(), "account", 10, 2000);
    var o5 := ChargeSafe(store, "account", 10, 2000, [Quiet], [2000]);
    results := [o1, o2, o3, o4, o5];
  }
}
