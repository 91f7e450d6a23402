/** Creating an AnalysisRun under the first free name, or finding the one a lost status patch left behind. */
module CollisionCounter {
  import opened Prelude

  /** A stored run: its controlling owner, everything of its specification that is compared, and whether its phase
      is a completed one. */
  datatype Run = Run(owner: Option<string>, spec: string, completed: bool)

  type Store = map<string, Run>

  datatype Error = NoOwner | CreateFailed | GetFailed

  // ---------------------------------------------------------------------------------------------
  // Names

  function Digit(d: nat): char
    requires d < 10
  {
    "0123456789"[d]
  }

  function Decimal(n: nat): string {
    if n < 10 then [Digit(n)] else Decimal(n / 10) + [Digit(n % 10)]
  }

  /** The name tried after `k` collisions. */
  function NameAt(base: string, k: nat): string {
    if k == 0 then base else base + "." + Decimal(k)
  }

  lemma {:induction false} DigitInjective(a: nat, b: nat)
    requires a < 10 && b < 10 && Digit(a) == Digit(b)
    ensures a == b
  {
  }

  lemma {:induction false} DecimalInjective(a: nat, b: nat)
    requires Decimal(a) == Decimal(b)
    ensures a == b
  {
    var s, t := Decimal(a), Decimal(b);
    assert s[|s| - 1] == Digit(a % 10) && t[|t| - 1] == Digit(b % 10);
    DigitInjective(a % 10, b % 10);
    DecimalNonEmpty(a / 10);
    DecimalNonEmpty(b / 10);
    if a >= 10 {
      assert Decimal(a / 10) == s[..|s| - 1] == t[..|t| - 1] == Decimal(b / 10);
      DecimalInjective(a / 10, b / 10);
    }
  }

  lemma {:induction false} DecimalNonEmpty(n: nat)
    ensures Decimal(n) != []
  {
  }

  /** No name is tried twice. */
  lemma {:induction false} NameInjective(base: string, j: nat, k: nat)
    requires NameAt(base, j) == NameAt(base, k)
    ensures j == k
  {
    if j > 0 && k > 0 {
      assert Decimal(j) == NameAt(base, j)[|base| + 1..] == NameAt(base, k)[|base| + 1..] == Decimal(k);
      DecimalInjective(j, k);
    }
  }

  function NamesBelow(base: string, n: nat): set<string> {
    set k | 0 <= k < n :: NameAt(base, k)
  }

  lemma {:induction false} NamesCount(base: string, n: nat)
    ensures |NamesBelow(base, n)| == n
  {
    hide NameAt;
    if n > 0 {
      NamesCount(base, n - 1);
      NewName(base, n - 1);
      assert NamesBelow(base, n) == NamesBelow(base, n - 1) + {NameAt(base, n - 1)};
    }
  }

  lemma {:induction false} NewName(base: string, n: nat)
    ensures NameAt(base, n) !in NamesBelow(base, n)
  {
    hide NameAt;
    if NameAt(base, n) in NamesBelow(base, n) {
      var k :| 0 <= k < n && NameAt(base, k) == NameAt(base, n);
      NameInjective(base, k, n);
    }
  }

  lemma {:induction false} SubsetCount<T>(a: set<T>, b: set<T>)
    requires a <= b
    ensures |a| <= |b|
  {
    assert b == a + (b - a);
  }

  /** As many names as there are runs, and one more, cannot all be taken. */
  lemma {:induction false} TakenNamesFit(base: string, store: Store, n: nat)
    requires forall k :: 0 <= k < n ==> NameAt(base, k) in store
    ensures n <= |store|
  {
    NamesCount(base, n);
    SubsetCount(NamesBelow(base, n), store.Keys);
  }

  // ---------------------------------------------------------------------------------------------
  // Creating a run

  /** An existing run is taken for ours when it is not completed, asks for the same and has the same owner. */
  predicate Ours(existing: Run, run: Run) {
    !existing.completed && existing.spec == run.spec && existing.owner.Some? && existing.owner == run.owner
  }

  /** A run of the same owner, for the same specification, that has not come to an end. */
  predicate IsLeftBehind(existing: Run, run: Run) {
    run.owner.Some? && existing == Run(run.owner, run.spec, false)
  }

  lemma {:induction false} OursIff(store: Store, run: Run)
    ensures forall name :: name in store ==> (Ours(store[name], run) <==> IsLeftBehind(store[name], run))
  {
  }

  /** A name that belongs to somebody else's run, or to one that is completed. */
  predicate Collides(store: Store, name: string, run: Run) {
    name in store && !Ours(store[name], run)
  }

  lemma {:induction false} CollidesIff(store: Store, name: string, run: Run)
    ensures Collides(store, name, run) <==> name in store && !Ours(store[name], run)
  {
  }

  /** The first `n` names all collide. */
  ghost predicate AllCollide(store: Store, base: string, run: Run, n: nat) {
    forall j :: 0 <= j < n ==> Collides(store, NameAt(base, j), run)
  }

  lemma {:induction false} AllCollideIff(store: Store, base: string, run: Run, n: nat)
    ensures AllCollide(store, base, run, n) <==>
      forall j :: 0 <= j < n ==> NameAt(base, j) in store && !Ours(store[NameAt(base, j)], run)
  {
    hide NameAt, Ours;
  }

  lemma {:induction false} OneMoreCollides(store: Store, base: string, run: Run, n: nat)
    ensures AllCollide(store, base, run, 0)
    ensures AllCollide(store, base, run, n) && Collides(store, NameAt(base, n), run) ==>
      AllCollide(store, base, run, n + 1)
  {
    hide NameAt, Collides;
  }

  lemma {:induction false} CollidingNamesFit(base: string, store: Store, run: Run, n: nat)
    requires AllCollide(store, base, run, n)
    ensures n <= |store|
  {
    hide NameAt;
    TakenNamesFit(base, store, n);
  }

  /** The place of the first name that does not collide. */
  ghost predicate IsFirstFree(store: Store, base: string, run: Run, k: nat) {
    !Collides(store, NameAt(base, k), run) && AllCollide(store, base, run, k)
  }

  /** The store after the call: the run is added under a free name; a run that is ours is left alone. */
  function Created(store: Store, name: string, run: Run): Store {
    if name in store then store else store[name := run]
  }

  class Cluster {
    var store: Store

    constructor (runs: Store)
      ensures store == runs
    {
      store := runs;
    }

    /** Create `run` under its name or the next one that does not collide. `createFails` and `getFails` say for
        which names the cluster answers with an error of its own. */
    method CreateWithCollisionCounter(base: string, run: Run, createFails: string -> bool, getFails: string -> bool)
      returns (result: Result<string, Error>, ghost tries: nat)
      modifies this
      ensures run.owner == None <==> result == Err(NoOwner)
      ensures tries <= |old(store)| + 1
      ensures result.Ok? ==>
        && tries > 0 && IsFirstFree(old(store), base, run, tries - 1)
        && result.value == NameAt(base, tries - 1)
        && store == Created(old(store), result.value, run)
      ensures result.Ok? ==>
        if result.value !in old(store) then store == old(store)[result.value := run]
        else store == old(store) && IsLeftBehind(store[result.value], run)
      ensures result.Ok? ==> forall j :: 0 <= j < tries - 1 ==>
        NameAt(base, j) in old(store) && !IsLeftBehind(old(store)[NameAt(base, j)], run)
      ensures result.Err? ==> store == old(store)
      ensures run.owner.Some? && result.Err? ==>
        && tries > 0 && AllCollide(store, base, run, tries - 1)
        && var name := NameAt(base, tries - 1);
           || (result.error == CreateFailed && createFails(name))
           || (result.error == GetFailed && name in store && getFails(name))
    {
      tries := 0;
      if run.owner == None {
        return Err(NoOwner), 0;
      }
      var collisionCount := 1;
      var name := base;
      ghost var runs := store;
      hide NameAt, Collides, Ours, AllCollide, IsLeftBehind;
      OneMoreCollides(runs, base, run, 0);
      FirstName(base);
      while true
        invariant tries + 1 == collisionCount && name == NameAt(base, tries) && store == runs
        invariant AllCollide(runs, base, run, tries)
        decreases |runs| - tries
      {
        CollidingNamesFit(base, runs, run, tries);
        CollidesIff(runs, name, run);
        OursIff(runs, run);
        AllCollideIff(runs, base, run, tries);
        OneMoreCollides(runs, base, run, tries);
        tries := tries + 1;
        if createFails(name) {
          return Err(CreateFailed), tries;
        }
        if name !in store {
          store := store[name := run];
          return Ok(name), tries;
        }
        if getFails(name) {
          return Err(GetFailed), tries;
        }
        if Ours(store[name], run) {
          return Ok(name), tries;
        }
        name := NextName(base, collisionCount);
        collisionCount := collisionCount + 1;
      }
    }
  }

  lemma {:induction false} FirstName(base: string)
    ensures NameAt(base, 0) == base
  {
  }

  function NextName(base: string, collisionCount: nat): (name: string)
    requires collisionCount > 0
    ensures name == NameAt(base, collisionCount)
  {
    base + "." + Decimal(collisionCount)
  }

  // ---------------------------------------------------------------------------------------------
  // Repeating a call

  /** Time passes and nothing is deleted: specifications and owners stay, and a completed run stays completed. */
  ghost predicate Evolves(store: Store, store': Store) {
    forall name :: name in store ==>
      && name in store'
      && store'[name].spec == store[name].spec && store'[name].owner == store[name].owner
      && (store[name].completed ==> store'[name].completed)
  }

  /** When the name of the run was lost before it was recorded, the same call finds the same run again, exactly as
      long as that run is not completed. */
  lemma {:induction false} RepeatFindsSameRun(store: Store, store': Store, base: string, run: Run, k: nat, k': nat)
    requires run.owner.Some? && !run.completed
    requires IsFirstFree(store, base, run, k)
    requires Evolves(Created(store, NameAt(base, k), run), store')
    requires IsFirstFree(store', base, run, k')
    ensures k' >= k
    ensures k' == k <==> !store'[NameAt(base, k)].completed
  {
    hide NameAt;
    var after := Created(store, NameAt(base, k), run);
    assert Ours(after[NameAt(base, k)], run);
    forall j | 0 <= j < k
      ensures Collides(store', NameAt(base, j), run)
    {
      assert NameAt(base, j) in after && after[NameAt(base, j)].spec == store[NameAt(base, j)].spec;
      if NameAt(base, j) == NameAt(base, k) {
        NameInjective(base, j, k);
      }
    }
  }

  /** There is always a first name that does not collide, among the first |store| + 1. */
  lemma {:induction false} FirstFreeExists(store: Store, base: string, run: Run) returns (k: nat)
    ensures k <= |store| && IsFirstFree(store, base, run, k)
  {
    hide NameAt, Collides, AllCollide;
    k := 0;
    OneMoreCollides(store, base, run, 0);
    while Collides(store, NameAt(base, k), run)
      invariant AllCollide(store, base, run, k)
      decreases |store| - k
    {
      OneMoreCollides(store, base, run, k);
      CollidingNamesFit(base, store, run, k + 1);
      k := k + 1;
    }
    CollidingNamesFit(base, store, run, k);
  }
}
