/**
 The generation-based certificate store (packages/orchestrator/src/certs/store.ts) for one certificate name, with a crash
 possible after any file-system effect. A pruned generation is removed in one step.
 */
module CertStore {
  import opened Options
  import opened Sorting

  datatype Content = Content(cert: string, key: string, meta: string)

  /** A generation directory; files appear one by one. */
  datatype Dir = Dir(cert: Option<string>, key: Option<string>, meta: Option<string>)

  /** `work` is the temporary directory last made; it is never listed. `current` is the file that names a generation. */
  datatype Disk = Disk(gens: map<nat, Dir>, work: Dir, current: Option<nat>)

  datatype Effect =
    | MakeWork
    | WriteCert(text: string)
    | WriteKey(text: string)
    | WriteMeta(text: string)
    | RenameWork(gen: nat)
    | SetCurrent(gen: nat)
    | Prune(gen: nat)

  const RETAINED_GENERATIONS := 3
  const EMPTY_DIR := Dir(None, None, None)
  const EMPTY_DISK := Disk(map[], EMPTY_DIR, None)

  function Do(d: Disk, e: Effect): Disk {
    match e
    case MakeWork => d.(work := EMPTY_DIR)
    case WriteCert(t) => d.(work := d.work.(cert := Some(t)))
    case WriteKey(t) => d.(work := d.work.(key := Some(t)))
    case WriteMeta(t) => d.(work := d.work.(meta := Some(t)))
    case RenameWork(g) => d.(gens := d.gens[g := d.work], work := EMPTY_DIR)
    case SetCurrent(g) => d.(current := Some(g))
    case Prune(g) => d.(gens := d.gens - {g})
  }

  function DoAll(d: Disk, effects: seq<Effect>): Disk
    decreases |effects|
  {
    if effects == [] then d else DoAll(Do(d, effects[0]), effects[1..])
  }

  predicate Complete(d: Dir) { d.cert.Some? && d.key.Some? && d.meta.Some? }

  function Full(c: Content): Dir { Dir(Some(c.cert), Some(c.key), Some(c.meta)) }

  // ---------- sorted listings ----------

  ghost predicate IsMax(s: set<nat>, m: nat) { m in s && forall x :: x in s ==> x <= m }

  lemma {:induction false} MaxExists(s: set<nat>)
    requires s != {}
    ensures exists m :: IsMax(s, m)
    decreases |s|
  {
    var x :| x in s;
    if s == {x} {
      assert IsMax(s, x);
    } else {
      MaxExists(s - {x});
      var m :| IsMax(s - {x}, m);
      forall y | y in s
        ensures y <= if x > m then x else m
      {
        assert y == x || y in s - {x};
      }
      assert IsMax(s, if x > m then x else m);
    }
  }

  ghost function Max(s: set<nat>): (m: nat)
    requires s != {}
    ensures IsMax(s, m)
  {
    MaxExists(s);
    var m :| IsMax(s, m);
    m
  }

  /** The members of a set in ascending order. */
  ghost function Ascending(s: set<nat>): (r: seq<nat>)
    ensures forall x :: x in r <==> x in s
    ensures forall i, j :: 0 <= i < j < |r| ==> r[i] < r[j]
    ensures |r| == |s|
    decreases |s|
  {
    if s == {} then [] else Ascending(s - {Max(s)}) + [Max(s)]
  }

  ghost function NextGeneration(d: Disk): nat { if d.gens.Keys == {} then 1 else Max(d.gens.Keys) + 1 }

  /** The oldest generations beyond the newest `RETAINED_GENERATIONS`, in ascending order. */
  ghost function ToPrune(all: seq<nat>): seq<nat> {
    if |all| <= RETAINED_GENERATIONS then [] else all[..|all| - RETAINED_GENERATIONS]
  }

  function Prunes(gens: seq<nat>): seq<Effect> { seq(|gens|, i requires 0 <= i < |gens| => Prune(gens[i])) }

  function Opening(c: Content, next: nat): (r: seq<Effect>)
    ensures |r| == 6
  {
    [MakeWork, WriteCert(c.cert), WriteKey(c.key), WriteMeta(c.meta), RenameWork(next), SetCurrent(next)]
  }

  /** What a store prunes: the oldest of the old generations and the new one. */
  ghost function Victims(d: Disk): seq<nat> { ToPrune(Ascending(d.gens.Keys + {NextGeneration(d)})) }

  /** The effects of storeCert, in order. */
  ghost function StoreEffects(d: Disk, c: Content): seq<Effect> { Opening(c, NextGeneration(d)) + Prunes(Victims(d)) }

  /** The generations below the current one. */
  function Earlier(d: Disk): set<nat> {
    if d.current.None? then {} else set g | g in d.gens && g < d.current.value
  }

  /** The effects of rollbackCert: none when it fails. */
  ghost function RollbackEffects(d: Disk): seq<Effect> {
    if Earlier(d) == {} then [] else [SetCurrent(Max(Earlier(d)))]
  }

  // ---------- what a cut-off store leaves ----------

  lemma {:induction false} DoAllConcat(d: Disk, a: seq<Effect>, b: seq<Effect>)
    ensures DoAll(d, a + b) == DoAll(DoAll(d, a), b)
    decreases |a|
  {
    if a == [] {
      assert a + b == b;
    } else {
      assert (a + b)[1..] == a[1..] + b;
      DoAllConcat(Do(d, a[0]), a[1..], b);
    }
  }

  lemma {:induction false} PruneAll(d: Disk, gens: seq<nat>)
    ensures DoAll(d, Prunes(gens)) == d.(gens := d.gens - set g | g in gens)
    decreases |gens|
  {
    if gens == [] {
      assert Prunes(gens) == [];
    } else {
      assert Prunes(gens)[1..] == Prunes(gens[1..]);
      PruneAll(Do(d, Prune(gens[0])), gens[1..]);
      assert (d.gens - {gens[0]}) - (set g | g in gens[1..]) == d.gens - set g | g in gens;
    }
  }

  /** The generations after the new one is in place and `pruned` are gone. */
  function Stored(d: Disk, next: nat, c: Content, pruned: seq<nat>): map<nat, Dir> {
    d.gens[next := Full(c)] - set g | g in pruned
  }

  /** The disk after the first `k` effects of a store. */
  lemma CutStore(d: Disk, c: Content, k: nat)
    requires k <= |StoreEffects(d, c)|
    ensures var next := NextGeneration(d); var u := DoAll(d, StoreEffects(d, c)[..k]);
            if k <= 6 then u.gens == (if k < 5 then d.gens else d.gens[next := Full(c)]) && u.current == if k < 6 then d.current else Some(next)
            else k - 6 <= |Victims(d)| && u.gens == Stored(d, next, c, Victims(d)[..k - 6]) && u.current == Some(next)
  {
    hide DoAll, Opening, Victims, NextGeneration;
    var next, first := NextGeneration(d), Opening(c, NextGeneration(d));
    if k <= 6 {
      assert StoreEffects(d, c)[..k] == first[..k];
      OpeningEffects(d, c, next, k);
    } else {
      var prune := Victims(d)[..k - 6];
      assert StoreEffects(d, c)[..k] == first + Prunes(prune);
      DoAllConcat(d, first, Prunes(prune));
      OpeningEffects(d, c, next, 6);
      assert first[..6] == first;
      PruneAll(DoAll(d, first), prune);
    }
  }

  lemma OpeningEffects(d: Disk, c: Content, next: nat, k: nat)
    requires k <= 6
    ensures var u := DoAll(d, Opening(c, next)[..k]);
            u.gens == (if k < 5 then d.gens else d.gens[next := Full(c)]) && u.current == if k < 6 then d.current else Some(next)
  {
    hide DoAll;
    var first := Opening(c, next);
    Chain(d, first, 0);
    Chain(d, first, 1);
    Chain(d, first, 2);
    Chain(d, first, 3);
    Chain(d, first, 4);
    Chain(d, first, 5);
    Chain(d, first, 6);
  }

  /** One more effect. */
  lemma Chain(d: Disk, effects: seq<Effect>, k: nat)
    requires k <= |effects|
    ensures DoAll(d, effects[..k]) == if k == 0 then d else Do(DoAll(d, effects[..k - 1]), effects[k - 1])
  {
    if k > 0 {
      assert effects[..k] == effects[..k - 1] + [effects[k - 1]];
      DoAllConcat(d, effects[..k - 1], [effects[k - 1]]);
    }
  }

  // ---------- runs of stores and rollbacks, each cut off anywhere ----------

  datatype Command = Store(content: Content, cut: Option<nat>) | Rollback

  ghost function EffectsOf(d: Disk, c: Command): seq<Effect> {
    match c
    case Store(content, cut) =>
      var all := StoreEffects(d, content);
      if cut.Some? && cut.value <= |all| then all[..cut.value] else all
    case Rollback => RollbackEffects(d)
  }

  ghost function After(d: Disk, commands: seq<Command>): Disk {
    if commands == [] then d
    else
      var before := After(d, commands[..|commands| - 1]);
      DoAll(before, EffectsOf(before, commands[|commands| - 1]))
  }

  /** `current` names a retained generation, and every retained generation is complete. */
  ghost predicate Inv(d: Disk) {
    && (d.current.Some? ==> d.current.value in d.gens)
    && (forall g :: g in d.gens ==> Complete(d.gens[g]))
  }

  /** `b` comes later than `a`: nothing retained has changed, new generations have higher numbers, and the newest number never drops. */
  ghost predicate Later(a: Disk, b: Disk) {
    && (forall g :: g in b.gens && g in a.gens ==> b.gens[g] == a.gens[g])
    && (forall g, h :: g in b.gens && g !in a.gens && h in a.gens ==> h < g)
    && (a.gens.Keys != {} ==> b.gens.Keys != {} && Max(a.gens.Keys) <= Max(b.gens.Keys))
  }

  lemma LaterTransitive(a: Disk, b: Disk, c: Disk)
    requires Later(a, b) && Later(b, c)
    ensures Later(a, c)
  {
    forall g | g in c.gens && g in a.gens
      ensures c.gens[g] == a.gens[g]
    {
      var m := Max(b.gens.Keys);
      assert m in b.gens && g <= Max(a.gens.Keys) <= m;
    }
    forall g, h | g in c.gens && g !in a.gens && h in a.gens
      ensures h < g
    {
      if g !in b.gens {
        assert h <= Max(a.gens.Keys) <= Max(b.gens.Keys) < g;
      }
    }
  }

  lemma PruneKeepsNewest(s: set<nat>, next: nat)
    requires forall g :: g in s ==> g < next
    ensures next !in ToPrune(Ascending(s + {next}))
    ensures forall g :: g in ToPrune(Ascending(s + {next})) ==> g in s
  {
    var all := Ascending(s + {next});
    var i := |all| - 1;
    assert next in all;
    var k :| 0 <= k < |all| && all[k] == next;
    assert all[i] in all && all[i] <= next;
    assert k == i;
  }

  /** A store cut off after any number of effects keeps the invariant and only moves forward. */
  lemma CutStoreSafe(d: Disk, c: Content, k: nat)
    requires Inv(d) && k <= |StoreEffects(d, c)|
    ensures Inv(DoAll(d, StoreEffects(d, c)[..k])) && Later(d, DoAll(d, StoreEffects(d, c)[..k]))
  {
    hide StoreEffects, DoAll, Victims;
    var next := NextGeneration(d);
    CutStore(d, c, k);
    NextIsNew(d);
    hide NextGeneration;
    if k > 6 {
      StoredLater(d, DoAll(d, StoreEffects(d, c)[..k]), next, c, Victims(d)[..k - 6]);
    } else if k >= 5 {
      assert d.gens[next := Full(c)] == Stored(d, next, c, []);
      StoredLater(d, DoAll(d, StoreEffects(d, c)[..k]), next, c, []);
    } else {
      LaterSame(d, DoAll(d, StoreEffects(d, c)[..k]));
    }
  }

  lemma NextIsNew(d: Disk)
    ensures forall g :: g in d.gens ==> g < NextGeneration(d)
    ensures NextGeneration(d) !in Victims(d)
  {
    var next := NextGeneration(d);
    assert forall g :: g in d.gens ==> g in d.gens.Keys;
    PruneKeepsNewest(d.gens.Keys, next);
  }

  lemma StoredLater(d: Disk, u: Disk, next: nat, c: Content, pruned: seq<nat>)
    requires Inv(d) && (forall g :: g in d.gens ==> g < next) && next !in pruned
    requires u.gens == Stored(d, next, c, pruned) && (u.current == Some(next) || (pruned == [] && u.current == d.current))
    ensures Inv(u) && Later(d, u)
  {
    assert next in u.gens;
    assert Max(u.gens.Keys) >= next;
  }

  lemma CommandSafe(d: Disk, c: Command)
    requires Inv(d)
    ensures Inv(DoAll(d, EffectsOf(d, c))) && Later(d, DoAll(d, EffectsOf(d, c)))
  {
    hide StoreEffects, Later;
    match c
    case Store(content, cut) =>
      var all := StoreEffects(d, content);
      assert all[..|all|] == all;
      CutStoreSafe(d, content, if cut.Some? && cut.value <= |all| then cut.value else |all|);
    case Rollback =>
      RollbackDescends(d);
      LaterSame(d, DoAll(d, RollbackEffects(d)));
  }

  lemma LaterSame(a: Disk, b: Disk)
    requires a.gens == b.gens
    ensures Later(a, b)
  {
  }

  /** At every moment, crashes included, `current` names a complete retained generation. */
  lemma {:induction false} CurrentAlwaysComplete(commands: seq<Command>)
    ensures Inv(After(EMPTY_DISK, commands))
  {
    hide Inv, EffectsOf, DoAll;
    if commands == [] {
      EmptyInv();
    } else {
      CurrentAlwaysComplete(commands[..|commands| - 1]);
      CommandSafe(After(EMPTY_DISK, commands[..|commands| - 1]), commands[|commands| - 1]);
    }
  }

  lemma EmptyInv()
    ensures Inv(EMPTY_DISK)
  {
  }

  /** Generation numbers are never reused for other contents, and new ones are higher than all retained before. */
  lemma {:induction false} NeverReused(commands: seq<Command>, i: nat, j: nat)
    requires i <= j <= |commands|
    ensures Later(After(EMPTY_DISK, commands[..i]), After(EMPTY_DISK, commands[..j]))
    decreases j
  {
    hide Inv, EffectsOf, DoAll, Later;
    if i == j {
      LaterSame(After(EMPTY_DISK, commands[..i]), After(EMPTY_DISK, commands[..j]));
    } else {
      NeverReused(commands, i, j - 1);
      assert commands[..j][..j - 1] == commands[..j - 1];
      var before := After(EMPTY_DISK, commands[..j - 1]);
      CurrentAlwaysComplete(commands[..j - 1]);
      CommandSafe(before, commands[j - 1]);
      LaterTransitive(After(EMPTY_DISK, commands[..i]), before, After(EMPTY_DISK, commands[..j]));
    }
  }

  /** How many retained generations are newer than `g`. */
  function Newer(s: set<nat>, g: nat): set<nat> { set h | h in s && h > g }

  /** A finished store leaves exactly the newest three of what was there and the new one, which is current and numbered one above the newest. */
  lemma FinishedStore(d: Disk, c: Content)
    requires Inv(d)
    ensures var u, next := DoAll(d, StoreEffects(d, c)), NextGeneration(d);
            && u.current == Some(next) && next in u.gens && u.gens[next] == Dir(Some(c.cert), Some(c.key), Some(c.meta))
            && (forall g :: g in d.gens ==> g < next)
            && (if d.gens == map[] then next == 1 else next - 1 in d.gens)
            && |u.gens| <= 3
            && (forall g :: g in u.gens <==> (g in d.gens || g == next) && |Newer(d.gens.Keys + {next}, g)| < 3)
            && (forall g :: g in u.gens && g != next ==> u.gens[g] == d.gens[g])
  {
    hide DoAll, Victims, NextGeneration, Ascending, Opening, Newer, ToPrune, Stored;
    var all := StoreEffects(d, c);
    var next := NextGeneration(d);
    var u, s := DoAll(d, all), Ascending(d.gens.Keys + {next});
    assert all[..|all|] == all;
    CutStore(d, c, |all|);
    NextIsNew(d);
    NextNumber(d);
    var prune := Victims(d);
    if |all| > 6 {
      assert prune[..|all| - 6] == prune;
    }
    VictimsAre(d);
    NewestThree(d.gens.Keys + {next});
    StoredKeys(d, next, c, prune);
    assert |u.gens| == |u.gens.Keys|;
  }

  lemma NextNumber(d: Disk)
    ensures if d.gens == map[] then NextGeneration(d) == 1 else NextGeneration(d) - 1 in d.gens
  {
    assert d.gens == map[] <==> d.gens.Keys == {};
  }

  lemma StoredKeys(d: Disk, next: nat, c: Content, pruned: seq<nat>)
    ensures Stored(d, next, c, pruned).Keys == (d.gens.Keys + {next}) - set g | g in pruned
    ensures next !in pruned ==> next in Stored(d, next, c, pruned) && Stored(d, next, c, pruned)[next] == Full(c)
    ensures forall g :: g in Stored(d, next, c, pruned) && g != next ==> g in d.gens && Stored(d, next, c, pruned)[g] == d.gens[g]
  {
  }

  lemma VictimsAre(d: Disk)
    ensures Victims(d) == ToPrune(Ascending(d.gens.Keys + {NextGeneration(d)}))
  {
  }

  /** Pruning leaves the elements with fewer than three newer ones, at most three of them. */
  lemma NewestThree(all: set<nat>)
    ensures var kept := all - set g | g in ToPrune(Ascending(all));
            && |kept| <= RETAINED_GENERATIONS
            && forall g :: g in kept <==> g in all && |Newer(all, g)| < RETAINED_GENERATIONS
  {
    hide Newer;
    var s := Ascending(all);
    hide Ascending;
    var prune := ToPrune(s);
    var kept := all - set g | g in prune;
    forall g | g in all
      ensures g in kept <==> |Newer(all, g)| < RETAINED_GENERATIONS
    {
      var i :| 0 <= i < |s| && s[i] == g;
      IndexNewer(all, s, i);
      assert g in prune <==> i < |prune|;
    }
    KeptCount(s, |prune|);
    assert kept == set k | |prune| <= k < |s| :: s[k];
  }

  lemma IndexNewer(all: set<nat>, s: seq<nat>, i: nat)
    requires (forall x :: x in s <==> x in all) && (forall i, j :: 0 <= i < j < |s| ==> s[i] < s[j]) && i < |s|
    ensures |Newer(all, s[i])| == |s| - 1 - i
  {
    NewerCount(s, i);
    assert Newer(all, s[i]) == set k | i < k < |s| :: s[k];
  }

  lemma NewerCount(s: seq<nat>, i: nat)
    requires i < |s| && forall i, j :: 0 <= i < j < |s| ==> s[i] < s[j]
    ensures |set k | i < k < |s| :: s[k]| == |s| - 1 - i
  {
    KeptCount(s, i + 1);
    assert (set k | i < k < |s| :: s[k]) == set k | i + 1 <= k < |s| :: s[k];
  }

  lemma {:induction false} KeptCount(s: seq<nat>, i: nat)
    requires i <= |s| && forall i, j :: 0 <= i < j < |s| ==> s[i] < s[j]
    ensures |set k | i <= k < |s| :: s[k]| == |s| - i
    decreases |s| - i
  {
    if i < |s| {
      KeptCount(s, i + 1);
      assert (set k | i <= k < |s| :: s[k]) == {s[i]} + set k | i + 1 <= k < |s| :: s[k];
    }
  }

  /** A rollback moves `current` to the next lower generation, and fails exactly when there is none. */
  lemma RollbackDescends(d: Disk)
    ensures var u := DoAll(d, RollbackEffects(d));
            && u.gens == d.gens
            && (RollbackEffects(d) == [] <==> d.current.None? || forall g :: g in d.gens ==> g >= d.current.value)
            && (RollbackEffects(d) == [] ==> u == d)
            && (RollbackEffects(d) != [] ==>
                && u.current.Some? && u.current.value in d.gens && u.current.value < d.current.value
                && forall g :: g in d.gens && g < d.current.value ==> g <= u.current.value)
  {
    if Earlier(d) == {} {
      assert d.current.Some? ==> forall g :: g in d.gens ==> g !in Earlier(d);
    } else {
      assert DoAll(d, RollbackEffects(d)) == Do(d, SetCurrent(Max(Earlier(d))));
      assert Max(Earlier(d)) in Earlier(d);
      assert forall g :: g in d.gens && g < d.current.value ==> g in Earlier(d);
    }
  }

  /** As many rollbacks succeed as there are earlier generations; then they fail. */
  lemma {:induction false} RollbacksRunOut(d: Disk, n: nat)
    requires n <= |Earlier(d)|
    ensures var u := After(d, seq(n, _ => Rollback)); u.gens == d.gens && |Earlier(u)| == |Earlier(d)| - n
    ensures var u := After(d, seq(n, _ => Rollback)); RollbackEffects(u) == [] <==> n == |Earlier(d)|
  {
    if n > 0 {
      RollbacksRunOut(d, n - 1);
      var commands := seq(n, _ => Rollback);
      assert commands[..n - 1] == seq(n - 1, _ => Rollback);
      var w := After(d, commands[..n - 1]);
      var u := After(d, commands);
      RollbackDescends(w);
      var m := Max(Earlier(w));
      assert u == Do(w, SetCurrent(m));
      assert Earlier(u) == Earlier(w) - {m};
    }
  }

  // ---------- the store itself ----------

  /** There is one ascending listing of a set. */
  lemma {:induction false} AscendingUnique(s: set<nat>, r: seq<nat>)
    requires forall x :: x in r <==> x in s
    requires forall i, j :: 0 <= i < j < |r| ==> r[i] < r[j]
    ensures r == Ascending(s)
    decreases |r|
  {
    if r == [] {
      assert s == {};
    } else {
      var n := |r| - 1;
      assert r[n] in s;
      assert IsMax(s, r[n]);
      assert r == r[..n] + [r[n]];
      AscendingUnique(s - {r[n]}, r[..n]);
    }
  }

  predicate NatLe(a: nat, b: nat) { a <= b }

  /** The directory listing, sorted. */
  method ListGenerations(gens: map<nat, Dir>) returns (r: seq<nat>)
    ensures r == Ascending(gens.Keys)
  {
    var names: seq<nat> := [];
    var todo := gens.Keys;
    while todo != {}
      invariant todo <= gens.Keys
      invariant forall x :: multiset(names)[x] == if x in gens.Keys && x !in todo then 1 else 0
      decreases todo
    {
      var x :| x in todo;
      names := names + [x];
      todo := todo - {x};
    }
    r := Sort(names, NatLe);
    SortSorted(names, NatLe);
    assert forall x :: x in r <==> x in multiset(r);
    forall i, j | 0 <= i < j < |r|
      ensures r[i] < r[j]
    {
      if r[i] == r[j] {
        TwiceInMultiset(r, i, j);
      }
    }
    AscendingUnique(gens.Keys, r);
  }

  lemma TwiceInMultiset(s: seq<nat>, i: nat, j: nat)
    requires i < j < |s| && s[i] == s[j]
    ensures multiset(s)[s[i]] >= 2
  {
    assert s == s[..j] + [s[j]] + s[j + 1..];
    assert s[i] in s[..j];
  }

  class CertVolume {
    var gens: map<nat, Dir>
    var work: Dir
    var current: Option<nat>
    ghost var done: seq<Effect>  // every file-system effect so far

    ghost function Contents(): Disk
      reads this
    {
      Disk(gens, work, current)
    }

    constructor ()
      ensures Contents() == EMPTY_DISK && done == []
    {
      gens, work, current, done := map[], EMPTY_DIR, None, [];
    }

    method Perform(e: Effect)
      modifies this
      ensures Contents() == Do(old(Contents()), e) && done == old(done) + [e]
    {
      match e {
        case MakeWork => work := EMPTY_DIR;
        case WriteCert(t) => work := work.(cert := Some(t));
        case WriteKey(t) => work := work.(key := Some(t));
        case WriteMeta(t) => work := work.(meta := Some(t));
        case RenameWork(g) => gens, work := gens[g := work], EMPTY_DIR;
        case SetCurrent(g) => current := Some(g);
        case Prune(g) => gens := gens - {g};
      }
      done := done + [e];
    }

    method PruneThese(toPrune: seq<nat>)
      modifies this
      ensures done == old(done) + Prunes(toPrune)
      ensures Contents() == DoAll(old(Contents()), Prunes(toPrune))
    {
      hide Do, DoAll;
      ghost var d := Contents();
      assert Prunes(toPrune[..0]) == [];
      DoNone(d);
      for i := 0 to |toPrune|
        invariant done == old(done) + Prunes(toPrune[..i])
        invariant Contents() == DoAll(d, Prunes(toPrune[..i]))
      {
        Perform(Prune(toPrune[i]));
        assert Prunes(toPrune[..i + 1]) == Prunes(toPrune[..i]) + [Prune(toPrune[i])];
        DoAllConcat(d, Prunes(toPrune[..i]), [Prune(toPrune[i])]);
        DoOne(DoAll(d, Prunes(toPrune[..i])), Prune(toPrune[i]));
      }
      assert toPrune[..|toPrune|] == toPrune;
    }

    method WriteGeneration(c: Content, gen: nat)
      modifies this
      ensures done == old(done) + Opening(c, gen)
      ensures Contents() == DoAll(old(Contents()), Opening(c, gen))
    {
      hide Do, DoAll;
      OpeningDone(Contents(), c, gen);
      Perform(MakeWork);
      Perform(WriteCert(c.cert));
      Perform(WriteKey(c.key));
      Perform(WriteMeta(c.meta));
      Perform(RenameWork(gen));
      Perform(SetCurrent(gen));
    }

    /** storeCert: performs exactly the effects of `StoreEffects`, so a crash leaves what a prefix of them leaves. */
    method StoreCert(c: Content) returns (gen: nat)
      modifies this
      ensures gen == NextGeneration(old(Contents()))
      ensures done == old(done) + StoreEffects(old(Contents()), c)
      ensures Contents() == DoAll(old(Contents()), StoreEffects(old(Contents()), c))
    {
      hide Do, DoAll, Ascending, Opening, NextGeneration, Victims, Prunes;
      ghost var d := Contents();
      var existing := ListGenerations(gens);
      gen := if existing == [] then 1 else existing[|existing| - 1] + 1;
      NextAndVictims(d, existing, gen);
      WriteGeneration(c, gen);
      var all := existing + [gen];
      var toPrune := if |all| <= RETAINED_GENERATIONS then [] else all[..|all| - RETAINED_GENERATIONS];
      DoAllConcat(d, Opening(c, gen), Prunes(toPrune));
      PruneThese(toPrune);
    }

    /** rollbackCert: `None` is the thrown error, and then nothing has changed. */
    method RollbackCert() returns (previous: Option<nat>)
      modifies this
      ensures Contents() == DoAll(old(Contents()), RollbackEffects(old(Contents())))
      ensures previous.None? <==> RollbackEffects(old(Contents())) == []
      ensures previous.Some? ==> previous == current
    {
      hide Do, Ascending;
      if current.None? {
        return None;
      }
      ghost var d := Contents();
      var generations := ListGenerations(gens);
      previous := Previous(generations, current.value);
      assert forall g :: g in gens ==> g in generations;
      if previous.Some? {
        assert IsMax(Earlier(d), previous.value);
        current := previous;
        DoOne(d, SetCurrent(previous.value));
        PointerSet(d, previous.value);
      } else {
        assert Earlier(d) == {};
      }
    }

    /** currentCertPaths: the directory `current` names, if its certificate is there. */
    method CurrentCert() returns (dir: Option<Dir>)
      ensures Inv(Contents()) ==> (dir.None? <==> current.None?) && (dir.Some? ==> Complete(dir.value) && dir.value == gens[current.value])
    {
      if current.None? || current.value !in gens || gens[current.value].cert.None? {
        return None;
      }
      dir := Some(gens[current.value]);
    }
  }

  /** The last generation in the list below the current one. */
  method Previous(generations: seq<nat>, current: nat) returns (previous: Option<nat>)
    requires forall i, j :: 0 <= i < j < |generations| ==> generations[i] < generations[j]
    ensures previous.None? ==> forall g :: g in generations ==> g >= current
    ensures previous.Some? ==> previous.value in generations && previous.value < current
    ensures previous.Some? ==> forall g :: g in generations && g < current ==> g <= previous.value
  {
    previous := None;
    for i := 0 to |generations|
      invariant previous.None? ==> forall k :: 0 <= k < i ==> generations[k] >= current
      invariant previous.Some? ==> previous.value in generations && previous.value < current
      invariant previous.Some? ==> forall k :: 0 <= k < i && generations[k] < current ==> generations[k] <= previous.value
    {
      if generations[i] < current {
        previous := Some(generations[i]);
      }
    }
  }

  lemma NextAndVictims(d: Disk, existing: seq<nat>, gen: nat)
    requires existing == Ascending(d.gens.Keys) && gen == if existing == [] then 1 else existing[|existing| - 1] + 1
    ensures gen == NextGeneration(d) && Victims(d) == ToPrune(existing + [gen])
  {
    LastIsMax(d.gens.Keys);
    NextIsNew(d);
    AscendingSnoc(d.gens.Keys, gen, existing);
  }

  lemma PointerSet(d: Disk, g: nat)
    ensures Do(d, SetCurrent(g)) == d.(current := Some(g))
  {
  }

  lemma DoNone(d: Disk)
    ensures DoAll(d, []) == d
  {
  }

  lemma DoOne(d: Disk, e: Effect)
    ensures DoAll(d, [e]) == Do(d, e)
  {
  }

  lemma OpeningDone(d: Disk, c: Content, gen: nat)
    ensures DoAll(d, Opening(c, gen)) ==
            Do(Do(Do(Do(Do(Do(d, MakeWork), WriteCert(c.cert)), WriteKey(c.key)), WriteMeta(c.meta)), RenameWork(gen)), SetCurrent(gen))
  {
    hide DoAll, Do;
    var first := Opening(c, gen);
    assert first[..6] == first;
    Chain(d, first, 0);
    Chain(d, first, 1);
    Chain(d, first, 2);
    Chain(d, first, 3);
    Chain(d, first, 4);
    Chain(d, first, 5);
    Chain(d, first, 6);
  }

  lemma LastIsMax(s: set<nat>)
    ensures s == {} <==> Ascending(s) == []
    ensures s != {} ==> Ascending(s)[|s| - 1] == Max(s)
  {
  }

  lemma AscendingSnoc(s: set<nat>, next: nat, listed: seq<nat>)
    requires listed == Ascending(s) && forall g :: g in s ==> g < next
    ensures Ascending(s + {next}) == listed + [next]
  {
    assert forall i :: 0 <= i < |listed| ==> listed[i] in listed;
    AscendingUnique(s + {next}, listed + [next]);
  }
}
