/**
 The single-account debit protocol of backend/app.ts: one optimistic charge
 attempt (`charge`), the retry wrapper around it (`chargeSafe`) and the
 unconditional `reset`.

 Concurrency is made explicit: other clients' writes are the `beforeRead` and
 `beforeExec` steps of an `Env`, run between the watch and the commit, and the
 clock of the retry loop is a sequence of elapsed-time readings.
 */
module App {
  import opened KeyValue

  /** The balance every account is reset to. */
  const DEFAULT_BALANCE: int := 100

  /** The store key that holds an account's balance. */
  function BalanceKey(account: string): string
  {
    account + "/balance"
  }

  /** Different accounts never share a balance key. */
  lemma BalanceKeyInjective(a: string, b: string)
    requires a != b
    ensures BalanceKey(a) != BalanceKey(b)
  {
    if |a| == |b| {
      assert BalanceKey(a)[..|a|] == a;
      assert BalanceKey(b)[..|b|] == b;
    } else {
      assert |BalanceKey(a)| != |BalanceKey(b)|;
    }
  }

  /** A JavaScript number as the protocol sees it: an integer, or NaN. */
  datatype Num = NaN | Int(value: int)

  /** `parseInt(stored ?? "")`: a missing key parses to NaN, not to 0. */
  function ParseBalance(stored: Option<int>): Num
  {
    if stored.Some? then Int(stored.value) else NaN
  }

  /** JavaScript's `balance >= charges`: false whenever `balance` is NaN. */
  predicate AtLeast(balance: Num, charges: int)
  {
    balance.Int? && balance.value >= charges
  }

  datatype ChargeResult = ChargeResult(isAuthorized: bool, remainingBalance: Num, charges: int)

  /** What `charge` can throw: the client's watch error, or any failure of the connection. */
  datatype Error = WatchError | ConnectionError

  /** How a call ends: it returns a result or it throws. */
  datatype Outcome = Returned(result: ChargeResult) | Threw(error: Error)

  /** The outside world during one attempt: whether connecting fails, and the
      write some other client makes between WATCH and GET and between GET and EXEC. */
  datatype Env = Env(connectFails: bool, beforeRead: Option<Write>, beforeExec: Option<Write>)

  /** No rival writes and a working connection. */
  const Quiet: Env := Env(false, None, None)

  predicate RivalWrites(env: Env, key: string)
  {
    Writes(env.beforeRead, key) || Writes(env.beforeExec, key)
  }

  /** The store as the rival clients leave it during an attempt. */
  function AfterRivals(db: Db, env: Env): Db
  {
    if env.connectFails then db else Apply(Apply(db, env.beforeRead), env.beforeExec)
  }

  /** The balance the attempt reads, after the rival write that precedes the GET. */
  function ReadBalance(db: Db, account: string, env: Env): Num
  {
    ParseBalance(Lookup(Apply(db, env.beforeRead), BalanceKey(account)))
  }

  /** Every stored balance is non-negative. */
  ghost predicate NonNegative(db: Db)
  {
    forall k :: k in db.values ==> db.values[k] >= 0
  }

  predicate RivalsNonNegative(env: Env)
  {
    (env.beforeRead.Some? ==> env.beforeRead.value.value >= 0) &&
    (env.beforeExec.Some? ==> env.beforeExec.value.value >= 0)
  }

  /** A connection's state once it has watched the balance key and read it. */
  datatype Session = Session(watch: WatchToken, balance: Num)

  /** The decision and commit of `charge` once the balance is read: decline without
      writing, or set `balance - charges` under the watch and re-read the key. */
  function Finish(db: Db, s: Session, charges: int): (res: (Db, Outcome))
    ensures res.1.Returned? && res.1.result.isAuthorized <==>
              AtLeast(s.balance, charges) && VersionOf(db, s.watch.key) == s.watch.version
    ensures res.1.Returned? && res.1.result.isAuthorized ==>
              res.0 == Put(db, s.watch.key, s.balance.value - charges) &&
              res.1.result == ChargeResult(true, Int(s.balance.value - charges), charges) &&
              s.balance.value - charges >= 0
    ensures !AtLeast(s.balance, charges) ==> res == (db, Returned(ChargeResult(false, s.balance, 0)))
    // a sufficient read under a stale watch is a conflict, not a decline, and writes nothing
    ensures AtLeast(s.balance, charges) && VersionOf(db, s.watch.key) != s.watch.version ==>
              res == (db, Threw(WatchError))
    ensures res.1.Threw? ==> res == (db, Threw(WatchError))
  {
    if AtLeast(s.balance, charges) then
      var (db', committed) := Exec(db, s.watch, s.watch.key, s.balance.value - charges);
      if committed then
        (db', Returned(ChargeResult(true, ParseBalance(Lookup(db', s.watch.key)), charges)))
      else
        (db, Threw(WatchError))
    else
      (db, Returned(ChargeResult(false, s.balance, 0)))
  }

  /** One call of `charge(account, charges)` against the store `db`, as a value:
      the store it leaves and how the call ends. */
  function Attempt(db: Db, account: string, charges: int, env: Env): (res: (Db, Outcome))
    // a failed connection touches nothing
    ensures env.connectFails ==> res == (db, Threw(ConnectionError))
    // undisturbed: debit on sufficiency, otherwise decline without a write
    ensures env == Quiet && AtLeast(ParseBalance(Lookup(db, BalanceKey(account))), charges) ==>
              var b := Lookup(db, BalanceKey(account)).value;
              res == (Put(db, BalanceKey(account), b - charges), Returned(ChargeResult(true, Int(b - charges), charges)))
    ensures env == Quiet && !AtLeast(ParseBalance(Lookup(db, BalanceKey(account))), charges) ==>
              res == (db, Returned(ChargeResult(false, ParseBalance(Lookup(db, BalanceKey(account))), 0)))
    // a missing balance key parses to NaN, and NaN is never at least the charge
    ensures env == Quiet && Lookup(db, BalanceKey(account)) == None ==>
              res == (db, Returned(ChargeResult(false, NaN, 0)))
    // with a working connection, whatever the rivals do: an insufficient read declines
    // without a write, and a sufficient read that no rival disturbs is debited
    ensures !env.connectFails && !AtLeast(ReadBalance(db, account, env), charges) ==>
              res == (AfterRivals(db, env), Returned(ChargeResult(false, ReadBalance(db, account, env), 0)))
    ensures !env.connectFails && AtLeast(ReadBalance(db, account, env), charges) &&
            !RivalWrites(env, BalanceKey(account)) ==>
              var b := ReadBalance(db, account, env).value;
              res == (Put(AfterRivals(db, env), BalanceKey(account), b - charges),
                      Returned(ChargeResult(true, Int(b - charges), charges)))
    // with a working connection the only error is a watch error, after a sufficient read
    ensures !env.connectFails && res.1.Threw? ==>
              res.1 == Threw(WatchError) && AtLeast(ReadBalance(db, account, env), charges)
    // a rival write to the watched key makes a commit fail
    ensures !env.connectFails && RivalWrites(env, BalanceKey(account)) && AtLeast(ReadBalance(db, account, env), charges) ==>
              res == (AfterRivals(db, env), Threw(WatchError))
    // a watch error arises only from such a rival write
    ensures res.1 == Threw(WatchError) ==> RivalWrites(env, BalanceKey(account))
    // declines and failures leave the store as the rivals left it
    ensures res.1.Returned? && !res.1.result.isAuthorized ==>
              res.0 == AfterRivals(db, env) && res.1.result == ChargeResult(false, ReadBalance(db, account, env), 0)
    ensures res.1.Threw? ==> res.0 == AfterRivals(db, env)
    // an authorized charge stores and reports the read balance minus the charge
    ensures res.1.Returned? && res.1.result.isAuthorized ==>
              AtLeast(ReadBalance(db, account, env), charges) &&
              var b := ReadBalance(db, account, env).value;
              res.0 == Put(AfterRivals(db, env), BalanceKey(account), b - charges) &&
              res.1.result == ChargeResult(true, Int(b - charges), charges)
    // only the account's balance key, and whatever the rivals write, changes
    ensures forall k :: k != BalanceKey(account) && !RivalWrites(env, k) ==>
              Lookup(res.0, k) == Lookup(db, k) && VersionOf(res.0, k) == VersionOf(db, k)
    ensures NonNegative(db) && RivalsNonNegative(env) ==> NonNegative(res.0)
  {
    if env.connectFails then
      (db, Threw(ConnectionError))
    else
      var key := BalanceKey(account);
      var w := WatchToken(key, VersionOf(db, key));
      var read := Apply(db, env.beforeRead);
      Finish(Apply(read, env.beforeExec), Session(w, ParseBalance(Lookup(read, key))), charges)
  }

  /** `charge`: watch the balance key, read it, then decline or commit the debit. */
  method Charge(store: Store, account: string, charges: int, env: Env) returns (r: Outcome)
    modifies store
    ensures (store.State(), r) == Attempt(old(store.State()), account, charges, env)
  {
    if env.connectFails {
      return Threw(ConnectionError);
    }
    var key := BalanceKey(account);
    var w := store.Watch(key);
    store.RivalWrite(env.beforeRead);
    var stored := store.Get(key);
    var balance := ParseBalance(stored);
    store.RivalWrite(env.beforeExec);
    if AtLeast(balance, charges) {
      var committed := store.ExecSet(w, key, balance.value - charges);
      if !committed {
        return Threw(WatchError);
      }
      var after := store.Get(key);
      r := Returned(ChargeResult(true, ParseBalance(after), charges));
    } else {
      r := Returned(ChargeResult(false, balance, 0));
    }
  }

  /** The store after `reset(account)`: the balance key holds the default whatever it
      held before, and no other key changes. */
  function AfterReset(db: Db, account: string): (r: Db)
    ensures Lookup(r, BalanceKey(account)) == Some(DEFAULT_BALANCE)
    ensures VersionOf(r, BalanceKey(account)) > VersionOf(db, BalanceKey(account))
    ensures forall k :: k != BalanceKey(account) ==> Lookup(r, k) == Lookup(db, k) && VersionOf(r, k) == VersionOf(db, k)
    ensures NonNegative(db) ==> NonNegative(r)
  {
    Put(db, BalanceKey(account), DEFAULT_BALANCE)
  }

  /** `reset`: overwrite the account's balance with the default. */
  method Reset(store: Store, account: string, connectFails: bool) returns (err: Option<Error>)
    modifies store
    ensures connectFails ==> err == Some(ConnectionError) && store.State() == old(store.State())
    ensures !connectFails ==> err == None && store.State() == AfterReset(old(store.State()), account)
  {
    if connectFails {
      return Some(ConnectionError);
    }
    store.Set(BalanceKey(account), DEFAULT_BALANCE);
    err := None;
  }

  /** The readings `elapsed` are the values of `performance.now() - start` at each
      watch error in turn; the last one has passed the deadline. */
  predicate ClockOracle(envs: seq<Env>, elapsed: seq<int>, timeout: int)
  {
    |envs| == |elapsed| && |elapsed| > 0 && elapsed[|elapsed| - 1] >= timeout
  }

  /** The error `chargeSafe` retries on: a watch error before the deadline. */
  predicate Retryable(o: Outcome, now: int, timeout: int)
  {
    o == Threw(WatchError) && now < timeout
  }

  /** A result that keeps the ChargeResult record's invariant for a request of `charges`. */
  predicate WellFormed(o: Outcome, charges: int)
  {
    o.Returned? ==>
      if o.result.isAuthorized then o.result.charges == charges && o.result.remainingBalance.Int?
      else o.result.charges == 0
  }

  /** `chargeSafe` from its `i`-th attempt on: attempts run until one is not retryable. */
  function Retry(db: Db, account: string, charges: int, timeout: int,
                 envs: seq<Env>, elapsed: seq<int>, i: nat): (res: (Db, Outcome))
    requires ClockOracle(envs, elapsed, timeout) && i < |elapsed|
    ensures WellFormed(res.1, charges)
    // the first attempt's outcome is final when it returns or when the deadline has passed
    ensures Attempt(db, account, charges, envs[i]).1.Returned? || elapsed[i] >= timeout ==>
              res == Attempt(db, account, charges, envs[i])
    // an escaping watch error is that of an attempt whose balance key a rival wrote, at the
    // first clock reading to reach the deadline
    ensures res.1 == Threw(WatchError) ==>
              exists j :: i <= j < |elapsed| && elapsed[j] >= timeout && RivalWrites(envs[j], BalanceKey(account)) &&
                          forall m :: i <= m < j ==> elapsed[m] < timeout
    // a connection error is that of an attempt whose connection failed
    ensures res.1 == Threw(ConnectionError) ==> exists j :: i <= j < |envs| && envs[j].connectFails
    ensures NonNegative(db) && (forall j :: i <= j < |envs| ==> RivalsNonNegative(envs[j])) ==> NonNegative(res.0)
    // keys that neither this account nor any rival writes keep their value and version
    ensures forall k :: k != BalanceKey(account) && (forall j :: i <= j < |envs| ==> !RivalWrites(envs[j], k)) ==>
              Lookup(res.0, k) == Lookup(db, k) && VersionOf(res.0, k) == VersionOf(db, k)
    decreases |elapsed| - i
  {
    var (db', o) := Attempt(db, account, charges, envs[i]);
    if Retryable(o, elapsed[i], timeout) then
      Retry(db', account, charges, timeout, envs, elapsed, i + 1)
    else
      (db', o)
  }

  /** `chargeSafe`: retry `charge` on watch errors while the deadline has not passed. */
  method ChargeSafe(store: Store, account: string, charges: int, timeout: int,
                    envs: seq<Env>, elapsed: seq<int>) returns (r: Outcome)
    requires ClockOracle(envs, elapsed, timeout)
    modifies store
    ensures (store.State(), r) == Retry(old(store.State()), account, charges, timeout, envs, elapsed, 0)
  {
    var retry := true;
    var i := 0;
    while retry
      invariant retry && 0 <= i < |elapsed|
      invariant Retry(old(store.State()), account, charges, timeout, envs, elapsed, 0)
             == Retry(store.State(), account, charges, timeout, envs, elapsed, i)
      decreases |elapsed| - i
    {
      retry := false;
      var o := Charge(store, account, charges, envs[i]);
      if o.Returned? {
        return o;
      }
      if o.error == WatchError && elapsed[i] < timeout {
        retry := true;
        i := i + 1;
      } else {
        return o;
      }
    }
    // every iteration returns, throws or sets `retry`: the fallback result is dead code
    assert false;
    r := Returned(ChargeResult(false, Int(0), 0));
  }

  /** Charging one account leaves every other account's balance, and its version, as it was. */
  lemma ChargeLeavesOtherAccounts(db: Db, account: string, other: string, charges: int, env: Env)
    requires account != other && !RivalWrites(env, BalanceKey(other))
    ensures var db' := Attempt(db, account, charges, env).0;
            Lookup(db', BalanceKey(other)) == Lookup(db, BalanceKey(other)) &&
            VersionOf(db', BalanceKey(other)) == VersionOf(db, BalanceKey(other))
  {
    BalanceKeyInjective(account, other);
  }

  /** The run of `chargeSafe` from attempt `i`: the stores `dbs[i..k]` between attempts,
      every attempt before the `k`-th a watch error before the deadline, and the `k`-th
      attempt's outcome, retryable no more, returned or rethrown unchanged. */
  lemma {:induction false} RetryRun(db: Db, account: string, charges: int, timeout: int,
                                    envs: seq<Env>, elapsed: seq<int>, i: nat)
      returns (k: nat, dbs: seq<Db>)
    requires ClockOracle(envs, elapsed, timeout) && i < |elapsed|
    ensures i <= k < |elapsed| && |dbs| == k + 1 && dbs[i] == db
    ensures forall j :: i <= j < k ==>
              Attempt(dbs[j], account, charges, envs[j]) == (dbs[j + 1], Threw(WatchError)) && elapsed[j] < timeout
    ensures !Retryable(Attempt(dbs[k], account, charges, envs[k]).1, elapsed[k], timeout)
    ensures Retry(db, account, charges, timeout, envs, elapsed, i) == Attempt(dbs[k], account, charges, envs[k])
    decreases |elapsed| - i
  {
    var (db', o) := Attempt(db, account, charges, envs[i]);
    if Retryable(o, elapsed[i], timeout) {
      var k', dbs' := RetryRun(db', account, charges, timeout, envs, elapsed, i + 1);
      k, dbs := k', dbs'[i := db];
    } else {
      k, dbs := i, seq(i + 1, _ => db);
    }
  }

  /** Once rival writes to the balance key stop, and while the deadline has not passed,
      `chargeSafe` ends with a result: authorized or declined, never a watch error. */
  lemma {:induction false} RetryConverges(db: Db, account: string, charges: int, timeout: int,
                                          envs: seq<Env>, elapsed: seq<int>, i: nat, quietFrom: nat)
    requires ClockOracle(envs, elapsed, timeout) && i < |elapsed| && quietFrom < |elapsed|
    requires forall j :: i <= j < |envs| ==> !envs[j].connectFails
    requires forall j :: quietFrom <= j < |envs| ==> !RivalWrites(envs[j], BalanceKey(account))
    requires forall j :: i <= j < quietFrom ==> elapsed[j] < timeout
    ensures Retry(db, account, charges, timeout, envs, elapsed, i).1.Returned?
    decreases |elapsed| - i
  {
    // Retry's ensures pin each error to an attempt the requires rule out: a watch error to
    // a rival write at a reading that reached the deadline, a connection error to a failed
    // connection
    match Retry(db, account, charges, timeout, envs, elapsed, i).1
    case Returned(_) =>
    case Threw(WatchError) => assert false;
    case Threw(ConnectionError) => assert false;
  }

  /** An attempt whose read is preceded by a rival write of a sufficient balance: it
      always reaches EXEC, and EXEC always fails. */
  predicate Contended(env: Env, account: string, charges: int)
  {
    !env.connectFails && env.beforeRead.Some? &&
    env.beforeRead.value.key == BalanceKey(account) && env.beforeRead.value.value >= charges
  }

  /** Under contention on every attempt, `chargeSafe` gives up by rethrowing the watch
      error once the deadline passes; it never turns contention into a decline. */
  lemma {:induction false} RetryUnderContention(db: Db, account: string, charges: int, timeout: int,
                                                envs: seq<Env>, elapsed: seq<int>, i: nat)
    requires ClockOracle(envs, elapsed, timeout) && i < |elapsed|
    requires forall j :: i <= j < |envs| ==> Contended(envs[j], account, charges)
    ensures Retry(db, account, charges, timeout, envs, elapsed, i).1 == Threw(WatchError)
    decreases |elapsed| - i
  {
    var (db', o) := Attempt(db, account, charges, envs[i]);
    assert Contended(envs[i], account, charges);
    assert o == Threw(WatchError);
    if elapsed[i] < timeout {
      RetryUnderContention(db', account, charges, timeout, envs, elapsed, i + 1);
    }
  }
}
