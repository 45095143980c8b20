/**
  ApplyStatus (internal/controller/core/common/conditions.go:41-54): read the latest version, adopt it, overwrite the
  whole status, and retry while the write is refused because another writer came in between.

  Modules Controllers and StatusInterleaving treat ApplyStatus as one atomic write of the whole status, or none; that
  this is what the loop amounts to, against any adversary, is proved here.
 */
module StatusRetry {

  /** An object in the store. A status write replaces `status` and nothing else. */
  datatype Resource<Spec, State> = Resource(labels: map<string, string>, spec: Spec, status: State)

  datatype Author = Us | Other

  /** A stored version of the object and who wrote it; the resource version is the length of the history up to it. */
  datatype Entry<Spec, State> = Entry(author: Author, resource: Resource<Spec, State>)

  /**
    What the adversary does during one attempt: the read fails; it is answered from a cache that is `lag` versions
    behind (from before the object existed, if that many have not been stored); other writers store new versions
    between the read and our write; the write fails for another reason than its version.
   */
  datatype Attempt<Spec, State> =
    Attempt(getFails: bool, lag: nat, between: seq<Resource<Spec, State>>, updateFails: bool)

  datatype Outcome = Success | Conflict | Error

  /** Steps of client-go's DefaultRetry. */
  const BUDGET: nat := 5

  function Others<Spec, State>(objects: seq<Resource<Spec, State>>): seq<Entry<Spec, State>> {
    seq(|objects|, i requires 0 <= i < |objects| => Entry(Other, objects[i]))
  }

  function At<Spec, State>(script: seq<Attempt<Spec, State>>, k: nat): Attempt<Spec, State> {
    if k < |script| then script[k] else Attempt(false, 0, [], false)
  }

  function Last<Spec, State>(history: seq<Entry<Spec, State>>): Resource<Spec, State>
    requires history != []
  {
    history[|history| - 1].resource
  }

  /** The attempt reads a version of the object. */
  predicate Reads<Spec, State>(history: seq<Entry<Spec, State>>, a: Attempt<Spec, State>) {
    !a.getFails && a.lag < |history|
  }

  /** The version read is not the latest one when the write arrives. */
  predicate Outdated<Spec, State>(a: Attempt<Spec, State>) {
    a.lag > 0 || a.between != []
  }

  /** The history and outcome from attempt `k` on, with `budget` attempts left. */
  function Run<Spec, State>(history: seq<Entry<Spec, State>>, script: seq<Attempt<Spec, State>>, k: nat, budget: nat,
                            status: State): (r: (seq<Entry<Spec, State>>, Outcome))
    requires history != []
    ensures history <= r.0
    decreases budget
  {
    if budget == 0 then (history, Conflict)
    else
      var a := At(script, k);
      var contended := history + Others(a.between);
      if !Reads(history, a) then (history, Error)
      else if a.updateFails then (contended, Error)
      else if Outdated(a) then Run(contended, script, k + 1, budget - 1, status)
      else (history + [Entry(Us, Last(history).(status := status))], Success)
  }

  /** The API server's copy of one object, with the adversary's script. */
  class Server<Spec, State> {
    const script: seq<Attempt<Spec, State>>
    var attempt: nat
    var history: seq<Entry<Spec, State>>

    constructor (first: Resource<Spec, State>, script: seq<Attempt<Spec, State>>)
      ensures this.script == script && attempt == 0 && history == [Entry(Other, first)]
    {
      this.script := script;
      attempt := 0;
      history := [Entry(Other, first)];
    }

    /** Get: a version that may be `lag` versions old, after which the other writers of this attempt come in. */
    method Get() returns (ok: bool, version: nat)
      modifies this
      ensures attempt == old(attempt)
      ensures ok <==> Reads(old(history), At(script, attempt))
      ensures ok ==> version == |old(history)| - At(script, attempt).lag
      ensures history == old(history) + (if ok then Others(At(script, attempt).between) else [])
    {
      var a := At(script, attempt);
      if a.getFails || a.lag >= |history| { return false, 0; }
      version := |history| - a.lag;
      history := history + Others(a.between);
      ok := true;
    }

    /** Status().Update: refused at an old version; otherwise only the status is replaced. */
    method UpdateStatus(version: nat, status: State) returns (r: Outcome)
      requires history != []
      modifies this
      ensures attempt == old(attempt) + 1
      ensures r == if At(script, old(attempt)).updateFails then Error
                   else if version != |old(history)| then Conflict else Success
      ensures history == if r.Success? then old(history) + [Entry(Us, Last(old(history)).(status := status))]
                         else old(history)
    {
      r := if At(script, attempt).updateFails then Error else if version != |history| then Conflict else Success;
      if r.Success? {
        history := history + [Entry(Us, Last(history).(status := status))];
      }
      attempt := attempt + 1;
    }
  }

  function OwnWrites<Spec, State>(entries: seq<Entry<Spec, State>>): nat {
    if entries == [] then 0
    else OwnWrites(entries[..|entries| - 1]) + if entries[|entries| - 1].author.Us? then 1 else 0
  }

  lemma {:induction false} OwnWritesConcat<Spec, State>(a: seq<Entry<Spec, State>>, b: seq<Entry<Spec, State>>)
    ensures OwnWrites(a + b) == OwnWrites(a) + OwnWrites(b)
  {
    if b == [] {
      assert a + b == a;
    } else {
      OwnWritesConcat(a, b[..|b| - 1]);
      assert (a + b)[..|a + b| - 1] == a + b[..|b| - 1];
    }
  }

  lemma {:induction false} OthersOwnNothing<Spec, State>(objects: seq<Resource<Spec, State>>)
    ensures OwnWrites(Others(objects)) == 0
  {
    if objects == [] {
    } else {
      OthersOwnNothing(objects[..|objects| - 1]);
      assert Others(objects)[..|objects| - 1] == Others(objects[..|objects| - 1]);
    }
  }

  /**
    Against any adversary the store is changed by this call at most once, and exactly on success. The entry written
    carries the caller's status and the labels and spec of the version it replaces.
   */
  lemma {:induction false} WritesOnceOrNever<Spec, State>(history: seq<Entry<Spec, State>>,
      script: seq<Attempt<Spec, State>>, k: nat, budget: nat, status: State)
    requires history != []
    ensures var (after, outcome) := Run(history, script, k, budget, status);
            && OwnWrites(after) == OwnWrites(history) + (if outcome.Success? then 1 else 0)
            && (outcome.Success? ==>
                  && |after| >= 2
                  && Last(after) == after[|after| - 2].resource.(status := status)
                  && after[|after| - 1].author.Us?)
    decreases budget
  {
    if budget == 0 {
    } else {
      var a := At(script, k);
      OwnWritesConcat(history, Others(a.between));
      OthersOwnNothing(a.between);
      if Reads(history, a) && !a.updateFails && Outdated(a) {
        WritesOnceOrNever(history + Others(a.between), script, k + 1, budget - 1, status);
      } else if Reads(history, a) && !a.updateFails {
        var e := Entry(Us, Last(history).(status := status));
        assert (history + [e])[..|history|] == history;
      }
    }
  }

  /** The history before attempt `j`, when all writes from attempt `k` on were refused. */
  function Before<Spec, State>(history: seq<Entry<Spec, State>>, script: seq<Attempt<Spec, State>>, k: nat, j: nat)
    : (r: seq<Entry<Spec, State>>)
    requires k <= j
    ensures history <= r
    decreases j
  {
    if j == k then history else Before(history, script, k, j - 1) + Others(At(script, j - 1).between)
  }

  /** Attempt `j` reads and is refused for its version, and nothing else goes wrong. */
  predicate Contended<Spec, State>(history: seq<Entry<Spec, State>>, script: seq<Attempt<Spec, State>>, k: nat, j: nat)
    requires k <= j
  {
    var a := At(script, j);
    Reads(Before(history, script, k, j), a) && !a.updateFails && Outdated(a)
  }

  /** Attempt `j` reads the latest version and writes before anybody else does. */
  predicate Calm<Spec, State>(script: seq<Attempt<Spec, State>>, j: nat) {
    var a := At(script, j);
    !a.getFails && !a.updateFails && !Outdated(a)
  }

  /** The outcome of the attempts from `j` on, for any `j` that is reached. */
  lemma {:induction false} OutcomeFrom<Spec, State>(history: seq<Entry<Spec, State>>,
      script: seq<Attempt<Spec, State>>, k: nat, j: nat, budget: nat, status: State)
    requires history != [] && k <= j
    ensures var outcome := Run(Before(history, script, k, j), script, j, budget, status).1;
            && (outcome.Success? <==>
                  exists n: nat :: j <= n < j + budget && Calm(script, n)
                                   && forall i: nat :: j <= i < n ==> Contended(history, script, k, i))
            && (outcome.Conflict? <==> forall n: nat :: j <= n < j + budget ==> Contended(history, script, k, n))
    decreases budget
  {
    if budget == 0 {
    } else if Contended(history, script, k, j) {
      OutcomeFrom(history, script, k, j + 1, budget - 1, status);
    } else if Calm(script, j) {
      assert !Contended(history, script, k, j);
    } else {
      assert !Contended(history, script, k, j) && !Calm(script, j);
    }
  }

  /**
    The call succeeds iff an attempt that reads the latest version and is not overtaken comes within the budget, after
    attempts that only read old versions or were overtaken. It reports a conflict iff all attempts were like those.
   */
  lemma SucceedsIff<Spec, State>(history: seq<Entry<Spec, State>>, script: seq<Attempt<Spec, State>>, k: nat,
                                 budget: nat, status: State)
    requires history != []
    ensures Run(history, script, k, budget, status).1.Success? <==>
            exists n: nat :: k <= n < k + budget && Calm(script, n)
                             && forall i: nat :: k <= i < n ==> Contended(history, script, k, i)
    ensures Run(history, script, k, budget, status).1.Conflict? <==>
            forall n: nat :: k <= n < k + budget ==> Contended(history, script, k, n)
  {
    OutcomeFrom(history, script, k, k, budget, status);
  }

  /** What a call begun at attempt `k` promises about the history it leaves, and about its outcome. */
  ghost predicate Keeps<Spec, State>(history: seq<Entry<Spec, State>>, script: seq<Attempt<Spec, State>>, k: nat,
                                     status: State, after: seq<Entry<Spec, State>>, outcome: Outcome)
  {
    && OwnWrites(after) == OwnWrites(history) + (if outcome.Success? then 1 else 0)
    && (outcome.Success? ==>
          && |after| >= 2 && after[|after| - 1].author.Us?
          && var replaced := after[|after| - 2].resource;
             Last(after) == Resource(replaced.labels, replaced.spec, status))
    && (outcome.Success? <==>
          exists n: nat :: k <= n < k + 5 && Calm(script, n)
                           && forall i: nat :: k <= i < n ==> Contended(history, script, k, i))
    && (outcome.Conflict? <==> forall n: nat :: k <= n < k + 5 ==> Contended(history, script, k, n))
  }

  lemma FiveAttempts<Spec, State>(history: seq<Entry<Spec, State>>, script: seq<Attempt<Spec, State>>, k: nat,
                                  status: State)
    requires history != []
    ensures var (after, outcome) := Run(history, script, k, BUDGET, status);
            Keeps(history, script, k, status, after, outcome)
  {
    WritesOnceOrNever(history, script, k, BUDGET, status);
    SucceedsIff(history, script, k, BUDGET, status);
  }

  /**
    ApplyStatus with RetryOnConflict written out: at most five attempts, of which only a conflict is retried. It stores
    the status once if it succeeds and never otherwise; it succeeds iff one of the five attempts reads the latest
    version and is not overtaken, after attempts that only read old versions or were overtaken, and reports a conflict
    iff all five were like those.
   */
  method ApplyStatus<Spec, State>(server: Server<Spec, State>, status: State) returns (outcome: Outcome)
    requires server.history != []
    modifies server
    ensures (server.history, outcome)
         == Run(old(server.history), server.script, old(server.attempt), BUDGET, status)
    ensures server.attempt <= old(server.attempt) + 5
    ensures Keeps(old(server.history), server.script, old(server.attempt), status, server.history, outcome)
  {
    ghost var first, k := server.history, server.attempt;
    var steps := BUDGET;
    while steps > 0
      invariant 0 <= steps <= BUDGET && server.history != []
      invariant server.attempt == old(server.attempt) + BUDGET - steps
      invariant Run(server.history, server.script, server.attempt, steps, status)
             == Run(old(server.history), server.script, old(server.attempt), BUDGET, status)
    {
      ghost var before, a := server.history, At(server.script, server.attempt);
      var ok, version := server.Get();
      assert ok ==> server.history == before + Others(a.between) && (version == |server.history| <==> !Outdated(a));
      assert !ok || !Outdated(a) ==> server.history == before;
      if !ok {
        FiveAttempts(first, server.script, k, status);
        return Error;
      }
      outcome := server.UpdateStatus(version, status);
      if !outcome.Conflict? {
        FiveAttempts(first, server.script, k, status);
        return;
      }
      steps := steps - 1;
    }
    FiveAttempts(first, server.script, k, status);
    return Conflict;
  }

  /** Reads that lag behind by a version exhaust the budget although nobody else writes. */
  lemma {:induction false} LaggingReadsConflict<Spec, State>(history: seq<Entry<Spec, State>>,
      script: seq<Attempt<Spec, State>>, k: nat, budget: nat, status: State)
    requires |history| >= 2 && |script| >= k + budget
    requires forall i :: k <= i < k + budget ==> script[i] == Attempt(false, 1, [], false)
    ensures Run(history, script, k, budget, status) == (history, Conflict)
    decreases budget
  {
    if budget == 0 {
    } else {
      assert history + Others<Spec, State>([]) == history;
      LaggingReadsConflict(history, script, k + 1, budget - 1, status);
    }
  }
}
