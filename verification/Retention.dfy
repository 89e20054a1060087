/**
 Retention of ip_history: IPHistoryRepo.Prune in internal/store/ip_history.go and
 the drain loops of internal/server/pruner.go.

 One device's rows are a map from row id to observed_at. A batched drain deletes
 victims a batch at a time, and SQLite is free to choose which: the theorems say
 exactly when that choice cannot be observed.
 */
module Retention {
  import opened Devices
  import opened Int64
  import opened Sizes
  import Fanout

  /** Rows observed before `cutoff` are aged; `cap` bounds the rows kept, 0 for no cap. */
  datatype Policy = Policy(cutoff: int, cap: int)

  type Rows = map<nat, int>

  predicate Newest(rows: Rows, id: nat) {
    id in rows && forall k <- rows :: k <= id
  }

  function Above(rows: Rows, id: nat): set<nat> {
    set k | k in rows && k > id
  }

  predicate Aged(rows: Rows, p: Policy, id: nat) {
    id in rows && rows[id] < p.cutoff
  }

  /** At least `cap` rows are newer: the id is below the smallest of the top `cap` ids. */
  predicate BeyondCap(rows: Rows, p: Policy, id: nat) {
    p.cap > 0 && |Above(rows, id)| >= p.cap
  }

  /** The rows the DELETE selects before its LIMIT. */
  function Victims(rows: Rows, p: Policy): set<nat> {
    set id | id in rows && !Newest(rows, id) && (Aged(rows, p, id) || BeyondCap(rows, p, id))
  }

  /** One call of Prune: as many victims as the batch allows, whichever they are. */
  ghost predicate IsBatch(rows: Rows, p: Policy, batch: nat, doomed: set<nat>) {
    doomed <= Victims(rows, p) && |doomed| == if |Victims(rows, p)| < batch then |Victims(rows, p)| else batch
  }

  function Without(rows: Rows, doomed: seq<set<nat>>): Rows {
    if doomed == [] then rows else Without(rows, doomed[..|doomed| - 1]) - doomed[|doomed| - 1]
  }

  /** A drain: batches until a batch deletes nothing. */
  ghost predicate IsDrain(rows: Rows, p: Policy, batch: nat, doomed: seq<set<nat>>) {
    && (forall i :: 0 <= i < |doomed| ==> IsBatch(Without(rows, doomed[..i]), p, batch, doomed[i]))
    && Victims(Without(rows, doomed), p) == {}
  }

  /** What one unlimited DELETE keeps. */
  function Retained(rows: Rows, p: Policy): Rows {
    rows - Victims(rows, p)
  }

  /** Which rows survive: the newest, and those young enough with fewer than the cap above
      them, if there is a cap. */
  lemma RetainedIff(rows: Rows, p: Policy, id: nat)
    ensures id in Retained(rows, p) <==>
              && id in rows
              && ((forall k <- rows :: k <= id)
                  || (rows[id] >= p.cutoff && (p.cap <= 0 || |(set k | k in rows && k > id)| < p.cap)))
    ensures id in Retained(rows, p) ==> Retained(rows, p)[id] == rows[id]
  {
    assert Above(rows, id) == set k | k in rows && k > id;
  }

  /** The rows above id that the age policy alone keeps. */
  function FreshAbove(rows: Rows, p: Policy, id: nat): set<nat> {
    set k | k in rows && k > id && (Newest(rows, k) || !Aged(rows, p, k))
  }

  /** Some row inside the age window is beyond the cap only because of aged rows above it. */
  ghost predicate Crowded(rows: Rows, p: Policy) {
    exists id :: id in rows && !Newest(rows, id) && !Aged(rows, p, id) && BeyondCap(rows, p, id)
              && |FreshAbove(rows, p, id)| < p.cap
  }

  // ------------------------------------------------- the choice cannot be seen

  function HigherIn(s: set<nat>, t: nat): set<nat> {
    set k | k in s && k > t
  }

  /** The n largest elements of s: each has fewer than n elements of s above it. */
  lemma {:induction false} LargestOf(s: set<nat>, n: nat) returns (top: set<nat>)
    requires n <= |s|
    ensures top <= s && |top| == n
    ensures forall t <- top :: |HigherIn(s, t)| < n
  {
    if n == 0 {
      top := {};
    } else {
      var m := MaxOf(s);
      var rest := LargestOf(s - {m}, n - 1);
      top := rest + {m};
      forall t <- top ensures |HigherIn(s, t)| < n {
        if t == m {
          assert HigherIn(s, t) == {};
        } else {
          assert HigherIn(s, t) == HigherIn(s - {m}, t) + {m};
        }
      }
    }
  }

  lemma {:induction false} MaxOf(s: set<nat>) returns (m: nat)
    requires s != {}
    ensures m in s && forall k <- s :: k <= m
  {
    var x :| x in s;
    if s == {x} {
      m := x;
    } else {
      var r := MaxOf(s - {x});
      m := if r > x then r else x;
      assert forall k <- s :: k == x || k in s - {x};
    }
  }

  lemma MinusMinus<T, U>(m: map<T, U>, a: set<T>, b: set<T>)
    ensures (m - a) - b == m - (a + b)
  {
  }

  /** When no row is crowded, at least `cap` rows that are no victims lie above every
      row inside the window that is beyond the cap. */
  lemma KeptAboveReachCap(rows: Rows, p: Policy, id: nat)
    requires !Crowded(rows, p) && id in rows && !Newest(rows, id) && !Aged(rows, p, id) && BeyondCap(rows, p, id)
    ensures |Above(rows, id) - Victims(rows, p)| >= p.cap
  {
    var inWindow := FreshAbove(rows, p, id);
    var top := LargestOf(inWindow, p.cap);
    forall t <- top ensures t in Above(rows, id) - Victims(rows, p) {
      if !Newest(rows, t) {
        assert FreshAbove(rows, p, t) == HigherIn(inWindow, t);
        assert !BeyondCap(rows, p, t);
      }
    }
    SubsetSize(top, Above(rows, id) - Victims(rows, p));
  }

  /** The key fact: deleting some victims makes no row a victim, and, unless a row is
      crowded, spares none. */
  lemma VictimsShrink(rows: Rows, p: Policy, gone: set<nat>)
    requires gone <= Victims(rows, p)
    ensures Victims(rows - gone, p) <= Victims(rows, p) - gone
    ensures !Crowded(rows, p) ==> Victims(rows - gone, p) == Victims(rows, p) - gone
  {
    var left := rows - gone;
    NewestStays(rows, p, gone);
    forall id <- left ensures id in Victims(left, p) ==> id in Victims(rows, p) {
      SubsetSize(Above(left, id), Above(rows, id));
    }
    if !Crowded(rows, p) {
      forall id | id in Victims(rows, p) && id !in gone ensures id in Victims(left, p) {
        if !Aged(rows, p, id) {
          KeptAboveReachCap(rows, p, id);
          SubsetSize(Above(rows, id) - Victims(rows, p), Above(left, id));
        }
      }
    }
  }

  lemma NewestStays(rows: Rows, p: Policy, gone: set<nat>)
    requires gone <= Victims(rows, p)
    ensures forall id :: Newest(rows - gone, id) <==> Newest(rows, id)
  {
    if rows != map[] {
      var m := MaxOf(rows.Keys);
      assert Newest(rows, m) && Newest(rows - gone, m);
    }
  }

  lemma {:induction false} DrainStaysInside(rows: Rows, p: Policy, batch: nat, doomed: seq<set<nat>>) returns (gone: set<nat>)
    requires forall i :: 0 <= i < |doomed| ==> IsBatch(Without(rows, doomed[..i]), p, batch, doomed[i])
    ensures gone <= Victims(rows, p) && Without(rows, doomed) == rows - gone
  {
    if doomed == [] {
      gone := {};
    } else {
      var init := doomed[..|doomed| - 1];
      assert forall i :: 0 <= i < |init| ==> init[..i] == doomed[..i];
      var before := DrainStaysInside(rows, p, batch, init);
      VictimsShrink(rows, p, before);
      var last := doomed[|doomed| - 1];
      assert IsBatch(rows - before, p, batch, last);
      MinusMinus(rows, before, last);
      gone := before + last;
    }
  }

  lemma SettledRowsAreRetained(rows: Rows, p: Policy, gone: set<nat>)
    requires !Crowded(rows, p) && gone <= Victims(rows, p) && Victims(rows - gone, p) == {}
    ensures gone == Victims(rows, p)
  {
    VictimsShrink(rows, p, gone);
    assert Victims(rows, p) - gone == {};
    assert forall id <- Victims(rows, p) :: id in gone || id in Victims(rows, p) - gone;
  }

  /** Confluence. Unless a row is crowded, every drain, whatever its batch size and
      whichever victims each batch takes, ends at what one unlimited DELETE keeps. */
  lemma DrainIsConfluent(rows: Rows, p: Policy, batch: nat, doomed: seq<set<nat>>)
    requires !Crowded(rows, p) && IsDrain(rows, p, batch, doomed)
    ensures Without(rows, doomed) == Retained(rows, p)
  {
    var gone := DrainStaysInside(rows, p, batch, doomed);
    SettledRowsAreRetained(rows, p, gone);
  }

  /** When observed_at does not decrease with the id, no row is crowded. */
  lemma OrderedRowsAreNotCrowded(rows: Rows, p: Policy)
    requires forall a, b :: a in rows && b in rows && a <= b ==> rows[a] <= rows[b]
    ensures !Crowded(rows, p)
  {
    forall id | id in rows && !Aged(rows, p, id) ensures FreshAbove(rows, p, id) == Above(rows, id) {
    }
  }

  // ------------------------------------------------- when the choice can be seen

  /** How many rows above a row beyond the cap must go before it is within the cap. */
  function Surplus(rows: Rows, p: Policy, id: nat): int {
    |Above(rows, id)| - p.cap + 1
  }

  /** The rows that full batches can take and still leave one victim. */
  function FullBatches(victims: nat, batch: nat): int
    requires batch > 0
  {
    batch * ((victims - 1) / batch)
  }

  /** Some order of batches saves this row: it is a victim of the cap alone, and enough
      rows above it can go, in full batches, while it waits. */
  predicate Rescuable(rows: Rows, p: Policy, batch: nat, id: nat)
    requires batch > 0
  {
    var victims := Victims(rows, p);
    && id in victims && !Aged(rows, p, id)
    && Surplus(rows, p, id) <= |Above(rows, id) * victims|
    && Surplus(rows, p, id) <= FullBatches(|victims|, batch)
  }

  ghost predicate Exposed(rows: Rows, p: Policy, batch: nat)
    requires batch > 0
  {
    exists id :: Rescuable(rows, p, batch, id)
  }

  lemma MulGrows(b: nat, m: int, n: int)
    requires m <= n
    ensures b * m <= b * n
  {
  }

  lemma PastQuotient(n: nat, b: nat, q: int, r: int)
    requires n < b * q + b && r > q
    ensures b * r > n
  {
    MulGrows(b, q + 1, r);
    assert b * (q + 1) == b * q + b;
  }

  /** FullBatches is the largest multiple of the batch below the victims. */
  lemma FullBatchesIsLargest(victims: nat, batch: nat, rounds: nat)
    requires batch > 0 && victims > 0
    ensures 0 <= FullBatches(victims, batch) < victims
    ensures batch * rounds < victims ==> batch * rounds <= FullBatches(victims, batch)
  {
    var n := victims - 1;
    var q := n / batch;
    assert n == batch * q + n % batch;
    MulGrows(batch, 0, q);
    if rounds > q { PastQuotient(n, batch, q, rounds); } else { MulGrows(batch, rounds, q); }
  }

  /** No row is rescued before a row can be: what is deleted from the victims in full
      batches leaves exactly the other victims. */
  lemma NoRescue(rows: Rows, p: Policy, batch: nat, gone: set<nat>, rounds: nat)
    requires batch > 0 && !Exposed(rows, p, batch) && gone <= Victims(rows, p)
    requires gone != Victims(rows, p) ==> |gone| == batch * rounds
    ensures Victims(rows - gone, p) == Victims(rows, p) - gone
  {
    var victims := Victims(rows, p);
    NewestStays(rows, p, gone);
    VictimsShrink(rows, p, gone);
    forall id | id in victims && id !in gone ensures id in Victims(rows - gone, p) {
      if !Aged(rows, p, id) {
        var above := Above(rows, id);
        assert Above(rows - gone, id) == above - gone;
        DifferenceSize(above, gone);
        SubsetSize(above * gone, above * victims);
        SubsetSize(above * gone, gone);
        SubsetSize(gone, victims - {id});
        FullBatchesIsLargest(|victims|, batch, rounds);
        assert !Rescuable(rows, p, batch, id);
      }
    }
  }

  lemma DifferenceSize<T>(a: set<T>, b: set<T>)
    ensures |a - b| == |a| - |a * b|
  {
    assert a == (a - b) + a * b;
  }

  /** One more batch of a drain that has rescued nothing. */
  lemma NextBatch(rows: Rows, p: Policy, batch: nat, gone: set<nat>, rounds: nat, doomed: set<nat>)
    requires batch > 0 && !Exposed(rows, p, batch) && gone <= Victims(rows, p)
    requires gone != Victims(rows, p) ==> |gone| == batch * rounds
    requires IsBatch(rows - gone, p, batch, doomed)
    ensures gone + doomed <= Victims(rows, p)
    ensures gone + doomed != Victims(rows, p) ==> |gone + doomed| == batch * (rounds + 1)
  {
    var victims := Victims(rows, p);
    NoRescue(rows, p, batch, gone, rounds);
    if gone + doomed != victims {
      if |victims - gone| < batch { SubsetSize(doomed, victims - gone); }
      assert batch * (rounds + 1) == batch * rounds + batch;
    }
  }

  /** What was deleted so far went in full batches, or is all there was to delete. */
  ghost predicate Unrescued(rows: Rows, p: Policy, batch: nat, gone: set<nat>, rounds: nat) {
    batch > 0 && !Exposed(rows, p, batch) && gone <= Victims(rows, p) && (gone != Victims(rows, p) ==> |gone| == batch * rounds)
  }

  /** A batch taken from what an unfinished drain left extends that drain. */
  lemma BatchExtends(rows: Rows, p: Policy, batch: nat, gone: set<nat>, doomed: set<nat>)
    requires gone <= Victims(rows, p) && IsBatch(rows - gone, p, batch, doomed) && batch > 0
    ensures gone !! doomed && gone + doomed <= Victims(rows, p) && |gone + doomed| == |gone| + |doomed|
    ensures doomed == {} ==> Victims(rows - (gone + doomed), p) == {}
  {
    VictimsShrink(rows, p, gone);
    if doomed == {} { assert gone + doomed == gone; }
  }

  lemma DrainEnds(rows: Rows, p: Policy, batch: nat, gone: set<nat>, rounds: nat)
    requires batch > 0 && gone <= Victims(rows, p) && Victims(rows - gone, p) == {}
    requires !Exposed(rows, p, batch) ==> Unrescued(rows, p, batch, gone, rounds)
    ensures !Exposed(rows, p, batch) ==> gone == Victims(rows, p)
  {
    if !Exposed(rows, p, batch) {
      NoRescue(rows, p, batch, gone, rounds);
      NothingLeft(Victims(rows, p), gone);
    }
  }

  lemma {:induction false} UnexposedDrain(rows: Rows, p: Policy, batch: nat, doomed: seq<set<nat>>) returns (gone: set<nat>)
    requires batch > 0 && !Exposed(rows, p, batch)
    requires forall i :: 0 <= i < |doomed| ==> IsBatch(Without(rows, doomed[..i]), p, batch, doomed[i])
    ensures gone <= Victims(rows, p) && Without(rows, doomed) == rows - gone
    ensures gone != Victims(rows, p) ==> |gone| == batch * |doomed|
  {
    if doomed == [] {
      gone := {};
    } else {
      var n := |doomed| - 1;
      assert forall i :: 0 <= i < n ==> doomed[..n][..i] == doomed[..i];
      var before := UnexposedDrain(rows, p, batch, doomed[..n]);
      NextBatch(rows, p, batch, before, n, doomed[n]);
      MinusMinus(rows, before, doomed[n]);
      gone := before + doomed[n];
    }
  }

  lemma NothingLeft(all: set<nat>, gone: set<nat>)
    requires gone <= all && all - gone == {}
    ensures gone == all
  {
    assert all == gone + (all - gone);
  }

  /** A set of a given size between two others. */
  lemma {:induction false} SetBetween(low: set<nat>, high: set<nat>, n: nat) returns (s: set<nat>)
    requires low <= high && |low| <= n <= |high|
    ensures low <= s <= high && |s| == n
    decreases n - |low|
  {
    if |low| == n {
      s := low;
    } else {
      var rest := high - low;
      assert high == low + rest;
      var x :| x in rest;
      s := SetBetween(low + {x}, high, n);
    }
  }

  lemma {:induction false} WithoutPrepend(rows: Rows, first: set<nat>, rest: seq<set<nat>>)
    ensures Without(rows, [first] + rest) == Without(rows - first, rest)
  {
    if rest != [] {
      assert ([first] + rest)[..|rest|] == [first] + rest[..|rest| - 1];
      WithoutPrepend(rows, first, rest[..|rest| - 1]);
    } else {
      assert [first] + rest == [first] && [first][..0] == [];
    }
  }

  lemma DrainPrepend(rows: Rows, p: Policy, batch: nat, first: set<nat>, rest: seq<set<nat>>)
    requires IsBatch(rows, p, batch, first) && IsDrain(rows - first, p, batch, rest)
    ensures IsDrain(rows, p, batch, [first] + rest)
  {
    var all := [first] + rest;
    forall i | 0 <= i < |all| ensures IsBatch(Without(rows, all[..i]), p, batch, all[i]) {
      if i > 0 {
        assert all[..i] == [first] + rest[..i - 1];
        WithoutPrepend(rows, first, rest[..i - 1]);
      } else {
        assert all[..0] == [];
      }
    }
    WithoutPrepend(rows, first, rest);
  }

  /** Any rows can be drained. */
  lemma {:induction false} FinishDrain(rows: Rows, p: Policy, batch: nat) returns (doomed: seq<set<nat>>)
    requires batch > 0
    ensures IsDrain(rows, p, batch, doomed)
    decreases rows.Keys
  {
    var victims := Victims(rows, p);
    if victims == {} {
      doomed := [];
    } else {
      var first := SetBetween({}, victims, if |victims| < batch then |victims| else batch);
      var rest := FinishDrain(rows - first, p, batch);
      doomed := [first] + rest;
      DrainPrepend(rows, p, batch, first, rest);
    }
  }

  /** A full batch of the pool, and what it leaves. */
  lemma PoolBatch(rows: Rows, p: Policy, batch: nat, id: nat, pool: set<nat>) returns (first: set<nat>)
    requires pool <= Victims(rows, p) && |pool| >= batch
    ensures IsBatch(rows, p, batch, first) && first <= pool && |pool - first| == |pool| - batch
    ensures Above(rows - first, id) - (pool - first) == Above(rows, id) - pool
  {
    first := SetBetween({}, pool, batch);
    SubsetSize(pool, Victims(rows, p));
    DifferenceSize(pool, first);
    assert pool * first == first;
  }

  function Times(batch: nat, rounds: nat): nat {
    if rounds == 0 then 0 else Times(batch, rounds - 1) + batch
  }

  lemma {:induction false} TimesIsProduct(batch: nat, rounds: nat)
    ensures Times(batch, rounds) == batch * rounds
  {
    if rounds > 0 { TimesIsProduct(batch, rounds - 1); }
  }

  lemma SavedPrepend(rows: Rows, p: Policy, batch: nat, first: set<nat>, rest: seq<set<nat>>, saved: nat)
    requires IsBatch(rows, p, batch, first) && IsDrain(rows - first, p, batch, rest) && saved in Without(rows - first, rest)
    ensures IsDrain(rows, p, batch, [first] + rest) && saved in Without(rows, [first] + rest)
  {
    DrainPrepend(rows, p, batch, first, rest);
    WithoutPrepend(rows, first, rest);
  }

  /** A row that is no victim survives however the drain goes on. */
  lemma SavedAlready(rows: Rows, p: Policy, batch: nat, saved: nat) returns (doomed: seq<set<nat>>)
    requires batch > 0 && saved in rows && saved !in Victims(rows, p)
    ensures IsDrain(rows, p, batch, doomed) && saved in Without(rows, doomed)
  {
    doomed := FinishDrain(rows, p, batch);
    var gone := DrainStaysInside(rows, p, batch, doomed);
  }

  /** Deleting the pool, a number of full batches of other victims, brings id within the cap. */
  ghost predicate IsPool(rows: Rows, p: Policy, batch: nat, id: nat, pool: set<nat>, rounds: nat) {
    && id in rows && !Newest(rows, id) && !Aged(rows, p, id)
    && pool <= Victims(rows, p) && id !in pool && |pool| == Times(batch, rounds) && |Above(rows, id) - pool| < p.cap
  }

  lemma PoolShrinks(rows: Rows, p: Policy, batch: nat, id: nat, pool: set<nat>, rounds: nat, first: set<nat>)
    requires IsPool(rows, p, batch, id, pool, rounds) && rounds > 0 && first <= pool && |pool - first| == |pool| - batch
    requires Above(rows - first, id) - (pool - first) == Above(rows, id) - pool
    requires Victims(rows - first, p) == Victims(rows, p) - first
    ensures IsPool(rows - first, p, batch, id, pool - first, rounds - 1)
  {
    NewestStays(rows, p, first);
  }

  /** One batch of the pool: it saves some victim, or leaves a smaller pool. */
  lemma OneRound(rows: Rows, p: Policy, batch: nat, id: nat, pool: set<nat>, rounds: nat)
      returns (left: Rows, first: set<nat>, saved: set<nat>)
    requires batch > 0 && rounds > 0 && IsPool(rows, p, batch, id, pool, rounds)
    ensures left == rows - first && IsBatch(rows, p, batch, first)
    ensures forall v <- saved :: v in Victims(rows, p) && v in left && v !in Victims(left, p)
    ensures saved == {} ==> IsPool(left, p, batch, id, pool - first, rounds - 1)
    ensures forall v <- Victims(left, p) :: v in Victims(rows, p)
  {
    first := PoolBatch(rows, p, batch, id, pool);
    left := rows - first;
    VictimsShrink(rows, p, first);
    saved := Victims(rows, p) - first - Victims(left, p);
    if saved == {} {
      NothingLeft(Victims(rows, p) - first, Victims(left, p));
      PoolShrinks(rows, p, batch, id, pool, rounds, first);
    }
  }

  /** Deleting the pool in full batches saves a victim: id at the latest, when the pool is
      gone, or another one on the way. */
  lemma {:induction false} Rescue(rows: Rows, p: Policy, batch: nat, id: nat, pool: set<nat>, rounds: nat)
      returns (doomed: seq<set<nat>>, kept: nat)
    requires batch > 0 && IsPool(rows, p, batch, id, pool, rounds)
    ensures IsDrain(rows, p, batch, doomed) && kept in Without(rows, doomed)
    ensures kept == id || kept in Victims(rows, p)
    decreases rounds
  {
    if rounds == 0 {
      assert Above(rows, id) - pool == Above(rows, id);
      kept := id;
      doomed := SavedAlready(rows, p, batch, id);
    } else {
      var left, first, saved := OneRound(rows, p, batch, id, pool, rounds);
      var rest;
      if saved == {} {
        rest, kept := Rescue(left, p, batch, id, pool - first, rounds - 1);
      } else {
        kept :| kept in saved;
        rest := SavedAlready(left, p, batch, kept);
      }
      doomed := [first] + rest;
      SavedPrepend(rows, p, batch, first, rest, kept);
    }
  }

  /** Enough of the victims above a row that can be rescued, in full batches without it. */
  lemma RescuePool(rows: Rows, p: Policy, batch: nat, id: nat) returns (pool: set<nat>, rounds: nat)
    requires batch > 0 && Rescuable(rows, p, batch, id)
    ensures IsPool(rows, p, batch, id, pool, rounds)
  {
    var victims, above := Victims(rows, p), Above(rows, id);
    rounds := (|victims| - 1) / batch;
    FullBatchesIsLargest(|victims|, batch, 0);
    TimesIsProduct(batch, rounds);
    var must := SetBetween({}, above * victims, Surplus(rows, p, id));
    pool := SetBetween(must, victims - {id}, FullBatches(|victims|, batch));
    assert above * must == must;
    DifferenceSize(above, must);
    SubsetSize(above - pool, above - must);
  }

  /** A row that can be rescued, and a drain that saves a row the unlimited DELETE takes. */
  lemma SomeDrainDiffers(rows: Rows, p: Policy, batch: nat, id: nat) returns (doomed: seq<set<nat>>)
    requires batch > 0 && Rescuable(rows, p, batch, id)
    ensures IsDrain(rows, p, batch, doomed) && Without(rows, doomed) != Retained(rows, p)
  {
    var pool, rounds := RescuePool(rows, p, batch, id);
    var saved;
    doomed, saved := Rescue(rows, p, batch, id, pool, rounds);
    assert saved !in Retained(rows, p);
  }

  /** Exactly when the rows SQLite picks for each batch of this size cannot be observed:
      when no victim of the cap can be rescued. */
  lemma BatchConfluentIff(rows: Rows, p: Policy, batch: nat)
    requires batch > 0
    ensures (forall doomed :: IsDrain(rows, p, batch, doomed) ==> Without(rows, doomed) == Retained(rows, p))
       <==> !Exposed(rows, p, batch)
  {
    if Exposed(rows, p, batch) {
      var id :| Rescuable(rows, p, batch, id);
      var doomed := SomeDrainDiffers(rows, p, batch, id);
    } else {
      forall doomed | IsDrain(rows, p, batch, doomed) ensures Without(rows, doomed) == Retained(rows, p) {
        var gone := UnexposedDrain(rows, p, batch, doomed);
        NoRescue(rows, p, batch, gone, |doomed|);
        NothingLeft(Victims(rows, p), gone);
      }
    }
  }

  /** A table drained in one batch is never exposed. */
  lemma OneBatchIsExact(rows: Rows, p: Policy, batch: nat)
    requires batch > 0 && |Victims(rows, p)| <= batch
    ensures !Exposed(rows, p, batch)
  {
    forall id ensures !Rescuable(rows, p, batch, id) {
      if id in Victims(rows, p) {
        assert (|Victims(rows, p)| - 1) / batch == 0;
        assert FullBatches(|Victims(rows, p)|, batch) == 0;
      }
    }
  }

  /** A crowded row can be rescued one row at a time; and at any batch size only a table
      with a crowded row has a row to rescue. */
  lemma CrowdedIff(rows: Rows, p: Policy)
    ensures Crowded(rows, p) <==> Exposed(rows, p, 1)
    ensures forall batch :: batch > 0 && Exposed(rows, p, batch) ==> Crowded(rows, p)
  {
    if Crowded(rows, p) {
      var id :| id in rows && !Newest(rows, id) && !Aged(rows, p, id) && BeyondCap(rows, p, id) && |FreshAbove(rows, p, id)| < p.cap;
      var victims, above := Victims(rows, p), Above(rows, id);
      assert above - FreshAbove(rows, p, id) <= above * victims;
      assert above * FreshAbove(rows, p, id) == FreshAbove(rows, p, id);
      DifferenceSize(above, FreshAbove(rows, p, id));
      SubsetSize(above - FreshAbove(rows, p, id), above * victims);
      SubsetSize(above * victims, victims - {id});
      assert FullBatches(|victims|, 1) == |victims| - 1;
      assert Rescuable(rows, p, 1, id);
    }
    forall batch | batch > 0 && Exposed(rows, p, batch) ensures Crowded(rows, p) {
      var id :| Rescuable(rows, p, batch, id);
      var doomed := SomeDrainDiffers(rows, p, batch, id);
      if !Crowded(rows, p) { DrainIsConfluent(rows, p, batch, doomed); }
    }
  }

  /** The choice of rows cannot be observed at any batch size when no row is crowded, and
      can at batch size 1 when one is. */
  lemma ConfluentIff(rows: Rows, p: Policy)
    ensures (forall batch, doomed :: IsDrain(rows, p, batch, doomed) ==> Without(rows, doomed) == Retained(rows, p))
       <==> !Crowded(rows, p)
  {
    if Crowded(rows, p) {
      CrowdedIff(rows, p);
      BatchConfluentIff(rows, p, 1);
    } else {
      forall batch, doomed | IsDrain(rows, p, batch, doomed) ensures Without(rows, doomed) == Retained(rows, p) {
        DrainIsConfluent(rows, p, batch, doomed);
      }
    }
  }

  // ----------------------------------------------- a table where it can be seen

  /** One row inside the window, a batch of aged rows above it, and the newest row. */
  ghost predicate IsLateClock(rows: Rows, batch: nat) {
    && (forall id :: id in rows <==> 1 <= id <= batch + 2)
    && (forall id <- rows :: rows[id] == if id == 1 || id == batch + 2 then 100 else 0)
  }

  ghost predicate IsInterval(ids: set<nat>, low: nat, count: nat) {
    (forall id :: id in ids <==> low <= id < low + count) && |ids| == count
  }

  lemma {:induction false} Interval(low: nat, count: nat) returns (ids: set<nat>)
    ensures IsInterval(ids, low, count)
  {
    if count == 0 {
      ids := {};
    } else {
      ids := Interval(low, count - 1);
      ids := ids + {low + count - 1};
    }
  }

  lemma SomeLateClock(batch: nat) returns (rows: Rows)
    ensures IsLateClock(rows, batch)
  {
    var all := Interval(1, batch + 2);
    rows := map id | id in all :: if id == 1 || id == batch + 2 then 100 else 0;
  }

  const LATE_POLICY := Policy(50, 2)

  lemma LateClockVictims(rows: Rows, batch: nat, ids: set<nat>)
    requires batch > 0 && IsLateClock(rows, batch) && IsInterval(ids, 1, batch + 1)
    ensures Victims(rows, LATE_POLICY) == ids
  {
    assert Newest(rows, batch + 2);
    SubsetSize({2, batch + 2}, Above(rows, 1));
    assert BeyondCap(rows, LATE_POLICY, 1);
  }

  lemma TwoRows(rows: Rows, low: nat, last: nat)
    requires rows.Keys == {low, last} && low < last && rows[last] >= LATE_POLICY.cutoff
    ensures Victims(rows, LATE_POLICY) == if rows[low] < LATE_POLICY.cutoff then {low} else {}
  {
    assert Newest(rows, last);
    assert Above(rows, low) == {last};
  }

  lemma TakenInOne(rows: Rows, p: Policy, batch: nat, first: set<nat>)
    requires IsBatch(rows, p, batch, first) && Victims(rows - first, p) == {}
    ensures IsDrain(rows, p, batch, [first]) && Without(rows, [first]) == rows - first
  {
    assert [first][..0] == [];
  }

  /** With a cap of 2, taking the aged rows first saves row 1. */
  lemma AgedFirstSaves(rows: Rows, batch: nat, ids: set<nat>, aged: set<nat>)
    requires batch > 0 && IsLateClock(rows, batch) && IsInterval(ids, 1, batch + 1) && IsInterval(aged, 2, batch)
    ensures IsDrain(rows, LATE_POLICY, batch, [aged]) && Without(rows, [aged]).Keys == {1, batch + 2}
  {
    LateClockVictims(rows, batch, ids);
    assert (rows - aged).Keys == {1, batch + 2};
    TwoRows(rows - aged, 1, batch + 2);
    TakenInOne(rows, LATE_POLICY, batch, aged);
  }

  /** Taking row 1 in the first batch does not. */
  lemma OldestFirstDoesNot(rows: Rows, batch: nat, ids: set<nat>, oldest: set<nat>)
    requires batch > 0 && IsLateClock(rows, batch) && IsInterval(ids, 1, batch + 1) && IsInterval(oldest, 1, batch)
    ensures IsDrain(rows, LATE_POLICY, batch, [oldest] + [{batch + 1}])
    ensures Without(rows, [oldest] + [{batch + 1}]).Keys == {batch + 2}
  {
    var next := {batch + 1};
    LateClockVictims(rows, batch, ids);
    assert (rows - oldest).Keys == {batch + 1, batch + 2};
    TwoRows(rows - oldest, batch + 1, batch + 2);
    assert (rows - oldest - next).Keys == {batch + 2};
    LastRowStays(rows - oldest - next, batch + 2);
    TakenInOne(rows - oldest, LATE_POLICY, batch, next);
    DrainPrepend(rows, LATE_POLICY, batch, oldest, [next]);
    WithoutPrepend(rows, oldest, [next]);
  }

  /** At any batch size, the pruner's 5000 included, there is a table, and two drains
      of it, one of which keeps a row that the other deletes. */
  lemma LateClockIsExposed(batch: nat) returns (rows: Rows, kept: seq<set<nat>>, lost: seq<set<nat>>)
    requires batch > 0
    ensures IsLateClock(rows, batch) && Exposed(rows, LATE_POLICY, batch)
    ensures IsDrain(rows, LATE_POLICY, batch, kept) && Without(rows, kept).Keys == {1, batch + 2}
    ensures IsDrain(rows, LATE_POLICY, batch, lost) && Without(rows, lost).Keys == {batch + 2}
  {
    rows := SomeLateClock(batch);
    var ids := Interval(1, batch + 1);
    var aged := Interval(2, batch);
    var oldest := Interval(1, batch);
    kept, lost := [aged], [oldest] + [{batch + 1}];
    AgedFirstSaves(rows, batch, ids, aged);
    OldestFirstDoesNot(rows, batch, ids, oldest);
    assert Without(rows, kept) != Without(rows, lost);
    BatchConfluentIff(rows, LATE_POLICY, batch);
  }

  lemma LastRowStays(rows: Rows, last: nat)
    requires rows.Keys == {last}
    ensures Victims(rows, LATE_POLICY) == {}
  {
    assert Newest(rows, last);
  }

  /** The sentinel. A disabled age window passed as the smallest int64 leaves the cap
      alone to decide; passed as the current time it keeps only the newest row. */
  lemma DisabledAgeIsSentinel(rows: Rows, cap: int, now: int, id: nat)
    requires forall k <- rows :: MIN_INT64 <= rows[k] < now
    ensures id in Retained(rows, Policy(MIN_INT64, cap)) <==>
              id in rows && (Newest(rows, id) || cap <= 0 || |Above(rows, id)| < cap)
    ensures id in Retained(rows, Policy(now, cap)) <==> Newest(rows, id)
  {
  }

  // ------------------------------------------------------------------- the table

  /** One device's rows of the table. */
  function RowsOf(table: map<nat, HistoryRow>, d: DeviceId): Rows {
    map id | id in table && table[id].device == d :: table[id].observedAt
  }

  /** Retention never takes a device's newest row, so it is a writer of module Fanout. */
  lemma VictimsSpareNewest(db: Db, d: DeviceId, p: Policy, doomed: set<nat>)
    requires doomed <= Victims(RowsOf(db.history, d), p)
    ensures Fanout.SparesNewest(db, doomed)
  {
    var rows := RowsOf(db.history, d);
    forall e, h | Devices.IsNewest(db, e, h) ensures h !in doomed {
      if h in rows { assert Newest(rows, h); }
    }
  }

  class IPHistory {
    var table: map<nat, HistoryRow>

    constructor (table: map<nat, HistoryRow>)
      ensures this.table == table
    {
      this.table := table;
    }

    /** One DELETE. The rows within the LIMIT are whichever the query yields first. */
    method Prune(d: DeviceId, p: Policy, batch: nat) returns (n: nat)
      modifies this
      ensures exists doomed :: IsBatch(RowsOf(old(table), d), p, batch, doomed) && |doomed| == n && table == old(table) - doomed
    {
      var rows := RowsOf(table, d);
      var doomed, left := {}, Victims(rows, p);
      while |doomed| < batch && left != {}
        invariant doomed !! left && doomed + left == Victims(rows, p) && |doomed| <= batch
        decreases left
      {
        var id :| id in left;
        doomed, left := doomed + {id}, left - {id};
      }
      assert |doomed + left| == |doomed| + |left|;
      n := |doomed|;
      table := table - doomed;
      assert IsBatch(RowsOf(old(table), d), p, batch, doomed);
    }

    /** One batch of a drain that started from `start`, has deleted `gone` and has run
        `rounds` batches. */
    method PruneNext(d: DeviceId, p: Policy, batch: nat, ghost start: map<nat, HistoryRow>, ghost gone: set<nat>, ghost rounds: nat)
        returns (n: nat, ghost now: set<nat>)
      requires batch > 0 && table == start - gone && gone <= Victims(RowsOf(start, d), p)
      modifies this
      ensures gone <= now <= Victims(RowsOf(start, d), p) && |now| == |gone| + n && table == start - now
      ensures |table| == |old(table)| - n
      ensures n == 0 ==> Victims(RowsOf(start, d) - now, p) == {}
      ensures Unrescued(RowsOf(start, d), p, batch, gone, rounds) ==> Unrescued(RowsOf(start, d), p, batch, now, rounds + 1)
    {
      ghost var before := table;
      n := Prune(d, p, batch);
      ghost var doomed :| IsBatch(RowsOf(before, d), p, batch, doomed) && |doomed| == n && table == before - doomed;
      RowsOfWithout(start, d, gone);
      BatchExtends(RowsOf(start, d), p, batch, gone, doomed);
      RemainderShrinks(start, gone, doomed);
      now := gone + doomed;
      if Unrescued(RowsOf(start, d), p, batch, gone, rounds) {
        NextBatch(RowsOf(start, d), p, batch, gone, rounds, doomed);
      }
    }

    /** One device's drain. A failed batch ends it and keeps what was committed; without a
        failure, and unless a row can be rescued at this batch size, the victims are gone. */
    method Drain(d: DeviceId, p: Policy, batch: nat) returns (deleted: nat, failed: bool)
      requires batch > 0
      modifies this
      ensures deleted == |old(table)| - |table|
      ensures table.Keys <= old(table).Keys && forall id <- table :: table[id] == old(table)[id]
      ensures old(table).Keys - table.Keys <= Victims(RowsOf(old(table), d), p)
      ensures !failed && !Exposed(RowsOf(old(table), d), p, batch) ==> table == old(table) - Victims(RowsOf(old(table), d), p)
    {
      ghost var rows := RowsOf(table, d);
      ghost var gone: set<nat>, rounds: nat := {}, 0;
      deleted, failed := 0, false;
      assert table == table - gone;
      while true
        invariant !failed && gone <= Victims(rows, p) && table == old(table) - gone
        invariant deleted == |gone| == |old(table)| - |table|
        invariant !Exposed(rows, p, batch) ==> Unrescued(rows, p, batch, gone, rounds)
        decreases |table|
      {
        if * {
          failed := true;
          break;
        }
        var n;
        n, gone := PruneNext(d, p, batch, old(table), gone, rounds);
        rounds := rounds + 1;
        deleted := deleted + n;
        if n == 0 {
          DrainEnds(rows, p, batch, gone, rounds);
          break;
        }
      }
    }

    /** pruneIPHistory: every device in turn, and the number of rows removed. */
    method PruneAll(devices: seq<DeviceId>, p: Policy, batch: nat) returns (deleted: nat, failed: set<DeviceId>)
      requires batch > 0
      requires forall i, j :: 0 <= i < j < |devices| ==> devices[i] != devices[j]
      modifies this
      ensures deleted == |old(table)| - |table|
      ensures forall d :: !(d in devices) ==> RowsOf(table, d) == RowsOf(old(table), d)
      ensures forall d <- devices :: d !in failed && !Exposed(RowsOf(old(table), d), p, batch) ==>
                RowsOf(table, d) == Retained(RowsOf(old(table), d), p)
    {
      deleted, failed := 0, {};
      for i := 0 to |devices|
        invariant deleted == |old(table)| - |table|
        invariant forall d :: !(d in devices[..i]) ==> RowsOf(table, d) == RowsOf(old(table), d)
        invariant forall d <- devices[..i] :: d !in failed ==> Settled(old(table), table, d, p, batch)
      {
        var d := devices[i];
        ghost var before := table;
        var n, bad := Drain(d, p, batch);
        deleted := deleted + n;
        if bad { failed := failed + {d}; }
        OthersKeep(before, table, d);
        if !bad { DrainSettles(before, table, d, p, batch); }
        assert devices[..i + 1] == devices[..i] + [d];
      }
      assert devices[..|devices|] == devices;
    }
  }

  /** A device whose drain cannot depend on the choice of rows ends at what one DELETE keeps. */
  ghost predicate Settled(was: map<nat, HistoryRow>, now: map<nat, HistoryRow>, d: DeviceId, p: Policy, batch: nat)
    requires batch > 0
  {
    !Exposed(RowsOf(was, d), p, batch) ==> RowsOf(now, d) == Retained(RowsOf(was, d), p)
  }

  lemma DrainSettles(was: map<nat, HistoryRow>, now: map<nat, HistoryRow>, d: DeviceId, p: Policy, batch: nat)
    requires batch > 0
    requires !Exposed(RowsOf(was, d), p, batch) ==> now == was - Victims(RowsOf(was, d), p)
    ensures Settled(was, now, d, p, batch)
  {
    RowsOfWithout(was, d, Victims(RowsOf(was, d), p));
  }

  lemma OthersKeep(was: map<nat, HistoryRow>, now: map<nat, HistoryRow>, d: DeviceId)
    requires now.Keys <= was.Keys && forall id <- now :: now[id] == was[id]
    requires was.Keys - now.Keys <= RowsOf(was, d).Keys
    ensures forall e :: e != d ==> RowsOf(now, e) == RowsOf(was, e)
  {
    forall e | e != d ensures RowsOf(now, e) == RowsOf(was, e) {
      assert forall id <- was :: id !in now ==> id in was.Keys - now.Keys;
    }
  }

  lemma RowsOfWithout(table: map<nat, HistoryRow>, d: DeviceId, gone: set<nat>)
    ensures RowsOf(table - gone, d) == RowsOf(table, d) - gone
  {
  }

  lemma RemainderShrinks(start: map<nat, HistoryRow>, gone: set<nat>, doomed: set<nat>)
    requires doomed <= (start - gone).Keys
    ensures start - gone - doomed == start - (gone + doomed) && |start - gone - doomed| == |start - gone| - |doomed|
  {
    MinusMinus(start, gone, doomed);
    RemovedSize(start - gone, doomed);
  }
}
