/**
  Arbitrary storage: an account can be marked so that reading a slot nobody has touched yields
  a random value from then on, and another account can be made a copy of it, serving the same
  random values.
 */
module ArbitraryStorage {
  type Address = int
  type Slot = int
  type Word = int
  type Slots = map<Slot, Word>

  /** `values` caches what was generated per marked account, `copies` maps a copy to its source,
      and `touched` is the storage loaded or written so far. */
  datatype State = State(values: map<Address, Slots>, copies: map<Address, Address>, touched: map<Address, Slots>)

  function SlotsOf(st: State, a: Address): Slots {
    if a in st.touched then st.touched[a] else map[]
  }

  function Put(st: State, a: Address, s: Slot, v: Word): State {
    st.(touched := st.touched[a := SlotsOf(st, a)[s := v]])
  }

  function Marked(st: State, a: Address): State {
    st.(values := st.values[a := map[]])
  }

  /** An account marked arbitrary cannot become a copy; the source's present storage goes along. */
  function Copied(st: State, from: Address, to: Address): State {
    if to in st.values then st
    else
      var t := st.(touched := st.touched[to := SlotsOf(st, from)]);
      if from in st.values then t.(copies := t.copies[to := from]) else t
  }

  function Saved(st: State, a: Address, s: Slot, v: Word): State
    requires a in st.values
  {
    Put(st.(values := st.values[a := st.values[a][s := v]]), a, s, v)
  }

  /** The value a copy serves for an untouched slot, generated now or taken from the cache. */
  function CopyServed(st: State, target: Address, s: Slot, random: Word): (State, Word)
    requires target in st.copies && st.copies[target] in st.values
  {
    var source := st.copies[target];
    if s in st.values[source] then
      var v := st.values[source][s];
      (Put(st, target, s, v), v)
    else
      (Put(Saved(st, source, s, random), target, s, random), random)
  }

  /** Every copy has a source with a cache, so that no lookup can fail. */
  ghost predicate Sound(st: State) {
    forall t :: t in st.copies ==> st.copies[t] in st.values
  }

  /** A read; `stored` is what the database holds and `random` what the generator would yield. */
  function Read(st: State, a: Address, s: Slot, stored: Word, random: Word): (State, Word)
    requires Sound(st)
  {
    if s in SlotsOf(st, a) then (st, SlotsOf(st, a)[s])
    else
      var t := Put(st, a, s, stored);
      if stored != 0 then (t, stored)
      else if a in st.values then (Saved(t, a, s, random), random)
      else if a in st.copies then CopyServed(t, a, s, random)
      else (t, 0)
  }

  /** `vm.cool` drops an account's loaded storage. */
  function Cooled(st: State, a: Address): State {
    if a in st.touched then st.(touched := st.touched[a := map[]]) else st
  }

  /* ---------- The inspector's code ---------- */

  class Storage {
    var values: map<Address, Slots>
    var copies: map<Address, Address>
    var touched: map<Address, Slots>

    ghost function View(): State
      reads this
    {
      State(values, copies, touched)
    }

    ghost predicate Valid()
      reads this
    {
      Sound(View())
    }

    constructor ()
      ensures Valid() && View() == State(map[], map[], map[])
    {
      values, copies, touched := map[], map[], map[];
    }

    method Insert(a: Address, s: Slot, v: Word)
      modifies this`touched
      ensures View() == Put(old(View()), a, s, v)
    {
      var slots := if a in touched then touched[a] else map[];
      touched := touched[a := slots[s := v]];
    }

    method MarkArbitrary(a: Address)
      requires Valid()
      modifies this
      ensures Valid() && View() == Marked(old(View()), a)
    {
      values := values[a := map[]];
    }

    method CopyStorage(from: Address, to: Address) returns (ok: bool)
      requires Valid()
      modifies this
      ensures Valid() && View() == Copied(old(View()), from, to)
      ensures ok <==> to !in old(values)
      ensures !ok ==> View() == old(View())
      ensures ok ==>
        && to in touched && touched[to] == (if from in old(touched) then old(touched)[from] else map[])
        && (forall a :: a != to ==> (a in touched <==> a in old(touched)))
        && (forall a :: a != to && a in touched ==> touched[a] == old(touched)[a])
        && values == old(values)
        && (if from in values then to in copies && copies[to] == from else copies == old(copies))
    {
      if to in values { return false; }
      touched := touched[to := if from in touched then touched[from] else map[]];
      if from in values {
        copies := copies[to := from];
      }
      return true;
    }

    method Save(a: Address, s: Slot, v: Word)
      requires Valid() && a in values
      modifies this
      ensures Valid() && View() == Saved(old(View()), a, s, v)
    {
      values := values[a := values[a][s := v]];
      Insert(a, s, v);
    }

    method Copy(target: Address, s: Slot, random: Word) returns (v: Word)
      requires Valid() && target in copies
      modifies this
      ensures Valid() && (View(), v) == CopyServed(old(View()), target, s, random)
    {
      var source := copies[target];
      if s in values[source] {
        v := values[source][s];
      } else {
        Save(source, s, random);
        v := random;
      }
      Insert(target, s, v);
    }

    /** A storage load, by opcode or by cheatcode. */
    method Load(a: Address, s: Slot, stored: Word, random: Word) returns (v: Word)
      requires Valid()
      modifies this
      ensures Valid() && (View(), v) == Read(old(View()), a, s, stored, random)
      ensures a in old(touched) && s in old(touched)[a] ==> v == old(touched)[a][s] && View() == old(View())
      ensures (a !in old(touched) || s !in old(touched)[a]) && (stored != 0 || (a !in values && a !in copies)) ==>
        v == stored && values == old(values)
      ensures a in touched && s in touched[a] && touched[a][s] == v
    {
      if a in touched && s in touched[a] {
        return touched[a][s];
      }
      Insert(a, s, stored);
      v := stored;
      if stored == 0 {
        if a in values {
          Save(a, s, random);
          v := random;
        } else if a in copies {
          v := Copy(a, s, random);
        }
      }
    }
  }

  /* ---------- Runs ---------- */

  datatype Event =
    | Mark(target: Address)
    | CopyTo(from: Address, to: Address)
    | Load(account: Address, slot: Slot, stored: Word, random: Word)
    | Store(account: Address, slot: Slot, value: Word)
    | Cool(target: Address)

  ghost function Step(st: State, e: Event): (r: State)
    requires Sound(st)
    ensures Sound(r)
  {
    match e
    case Mark(a) => Marked(st, a)
    case CopyTo(from, to) => Copied(st, from, to)
    case Load(a, s, stored, random) => Read(st, a, s, stored, random).0
    case Store(a, s, v) => Put(st, a, s, v)
    case Cool(a) => Cooled(st, a)
  }

  /** In every reachable state all copies have a source with a cache. */
  ghost function Run(st: State, evs: seq<Event>): (r: State)
    requires Sound(st)
    ensures Sound(r)
  {
    if evs == [] then st else Step(Run(st, evs[..|evs| - 1]), evs[|evs| - 1])
  }

  /** What the load of event `i` returns. */
  ghost function Served(st: State, evs: seq<Event>, i: nat): Word
    requires Sound(st) && i < |evs| && evs[i].Load?
  {
    Read(Run(st, evs[..i]), evs[i].account, evs[i].slot, evs[i].stored, evs[i].random).1
  }

  /** `r` reads arbitrary values of `source`: it is the source, or a copy of it. */
  predicate ReaderOf(st: State, r: Address, source: Address) {
    if r in st.values then r == source else r in st.copies && st.copies[r] == source
  }

  /** Event `i` loads slot `s` through a reader of `source` that has not touched it. */
  ghost predicate UntouchedLoad(st: State, evs: seq<Event>, i: nat, source: Address, s: Slot)
    requires Sound(st) && i < |evs|
  {
    && evs[i].Load? && evs[i].slot == s && evs[i].stored == 0
    && var now := Run(st, evs[..i]);
       s !in SlotsOf(now, evs[i].account) && ReaderOf(now, evs[i].account, source)
  }

  /** Whatever is cached for the source is also loaded in its storage. */
  ghost predicate CacheLoaded(st: State, source: Address) {
    source in st.values && forall s :: s in st.values[source] ==> s in SlotsOf(st, source)
  }

  /** The slot's value is settled: cached for the source, and loaded in the source's storage. */
  predicate Settled(st: State, source: Address, s: Slot, v: Word) {
    && source in st.values && s in st.values[source] && st.values[source][s] == v
    && s in SlotsOf(st, source)
  }

  predicate Disturbs(e: Event, source: Address) {
    e == Mark(source) || e == Cool(source)
  }

  predicate StoresTo(e: Event, a: Address, s: Slot) {
    e.Store? && e.account == a && e.slot == s
  }

  lemma CacheLoadedStep(st: State, e: Event, source: Address)
    requires Sound(st) && CacheLoaded(st, source) && !Disturbs(e, source)
    ensures CacheLoaded(Step(st, e), source)
  {
  }

  lemma {:induction false} CacheStaysLoaded(st: State, evs: seq<Event>, source: Address)
    requires Sound(st) && CacheLoaded(st, source)
    requires forall k :: 0 <= k < |evs| ==> !Disturbs(evs[k], source)
    ensures CacheLoaded(Run(st, evs), source)
  {
    if evs != [] {
      CacheStaysLoaded(st, evs[..|evs| - 1], source);
      CacheLoadedStep(Run(st, evs[..|evs| - 1]), evs[|evs| - 1], source);
    }
  }

  /** A load through an untouched reader settles the slot, or serves the settled value. */
  lemma LoadSettles(st: State, r: Address, s: Slot, random: Word, source: Address)
    requires Sound(st) && CacheLoaded(st, source) && s !in SlotsOf(st, r) && ReaderOf(st, r, source)
    ensures
      var (t, v) := Read(st, r, s, 0, random);
      && Settled(t, source, s, v)
      && (forall u :: Settled(st, source, s, u) ==> v == u)
      && (s !in st.values[source] ==> SlotsOf(t, source)[s] == v)
  {
  }

  lemma SettledStep(st: State, e: Event, source: Address, s: Slot, v: Word)
    requires Sound(st) && Settled(st, source, s, v) && !Disturbs(e, source)
    ensures Settled(Step(st, e), source, s, v)
    ensures !StoresTo(e, source, s) ==> SlotsOf(Step(st, e), source)[s] == SlotsOf(st, source)[s]
  {
  }

  lemma {:induction false} StaysSettled(st: State, evs: seq<Event>, i: nat, j: nat, source: Address, s: Slot, v: Word)
    requires Sound(st) && i <= j <= |evs| && Settled(Run(st, evs[..i]), source, s, v)
    requires forall k :: i <= k < j ==> !Disturbs(evs[k], source)
    ensures Settled(Run(st, evs[..j]), source, s, v)
    ensures (forall k :: i <= k < j ==> !StoresTo(evs[k], source, s)) ==>
      SlotsOf(Run(st, evs[..j]), source)[s] == SlotsOf(Run(st, evs[..i]), source)[s]
  {
    if i < j {
      StaysSettled(st, evs, i, j - 1, source, s, v);
      assert evs[..j][..j - 1] == evs[..j - 1];
      SettledStep(Run(st, evs[..j - 1]), evs[j - 1], source, s, v);
    }
  }

  /** Coherence: after `source` is marked, and as long as it is neither marked again nor cooled,
      the value that any untouched reader is served for a slot is the one served for it to every
      later untouched reader. */
  lemma UncooledReadersAgree(st: State, evs: seq<Event>, source: Address, s: Slot, i: nat, j: nat)
    requires Sound(st) && source in st.values && st.values[source] == map[]
    requires forall k :: 0 <= k < |evs| ==> !Disturbs(evs[k], source)
    requires i < j < |evs| && UntouchedLoad(st, evs, i, source, s) && UntouchedLoad(st, evs, j, source, s)
    ensures Served(st, evs, j) == Served(st, evs, i)
  {
    LoadedThenSettled(st, evs, source, s, i);
    StaysSettled(st, evs, i + 1, j, source, s, Served(st, evs, i));
    CacheStaysLoaded(st, evs[..j], source);
    LoadSettles(Run(st, evs[..j]), evs[j].account, s, evs[j].random, source);
  }

  lemma LoadedThenSettled(st: State, evs: seq<Event>, source: Address, s: Slot, i: nat)
    requires Sound(st) && source in st.values && st.values[source] == map[]
    requires forall k :: 0 <= k < |evs| ==> !Disturbs(evs[k], source)
    requires i < |evs| && UntouchedLoad(st, evs, i, source, s)
    ensures CacheLoaded(Run(st, evs[..i]), source)
    ensures Settled(Run(st, evs[..i + 1]), source, s, Served(st, evs, i))
  {
    CacheStaysLoaded(st, evs[..i], source);
    LoadSettles(Run(st, evs[..i]), evs[i].account, s, evs[i].random, source);
    assert evs[..i + 1][..i] == evs[..i];
  }

  lemma GeneratedStored(st: State, evs: seq<Event>, source: Address, s: Slot, i: nat)
    requires Sound(st) && i < |evs| && UntouchedLoad(st, evs, i, source, s)
    requires CacheLoaded(Run(st, evs[..i]), source) && s !in Run(st, evs[..i]).values[source]
    ensures s in SlotsOf(Run(st, evs[..i + 1]), source)
    ensures SlotsOf(Run(st, evs[..i + 1]), source)[s] == Served(st, evs, i)
  {
    LoadSettles(Run(st, evs[..i]), evs[i].account, s, evs[i].random, source);
    assert evs[..i + 1][..i] == evs[..i];
  }

  /** The source itself goes on reading a value generated through it or through a copy, until
      it writes the slot. */
  lemma UncooledSourceAgrees(st: State, evs: seq<Event>, source: Address, s: Slot, i: nat, j: nat)
    requires Sound(st) && source in st.values && st.values[source] == map[]
    requires forall k :: 0 <= k < |evs| ==> !Disturbs(evs[k], source)
    requires i < j < |evs| && UntouchedLoad(st, evs, i, source, s)
    requires s !in Run(st, evs[..i]).values[source]
    requires evs[j].Load? && evs[j].account == source && evs[j].slot == s
    requires forall k :: i < k < j ==> !StoresTo(evs[k], source, s)
    ensures Served(st, evs, j) == Served(st, evs, i)
  {
    LoadedThenSettled(st, evs, source, s, i);
    GeneratedStored(st, evs, source, s, i);
    StaysSettled(st, evs, i + 1, j, source, s, Served(st, evs, i));
  }

  /* ---------- Every run, cooled or not ---------- */

  /** Event `k` is a load by which the source itself draws a value for the slot. */
  ghost predicate Draws(st: State, evs: seq<Event>, k: nat, source: Address, s: Slot)
    requires Sound(st) && k < |evs|
  {
    UntouchedLoad(st, evs, k, source, s) && evs[k].account == source
  }

  /** The value of the last draw by the source among events `lo` to `hi - 1`, or `v`. */
  ghost function Latest(st: State, evs: seq<Event>, source: Address, s: Slot, lo: nat, hi: nat, v: Word): Word
    requires Sound(st) && lo <= hi <= |evs|
  {
    if lo == hi then v
    else if Draws(st, evs, hi - 1, source, s) then evs[hi - 1].random
    else Latest(st, evs, source, s, lo, hi - 1, v)
  }

  ghost predicate NotMarked(evs: seq<Event>, source: Address, lo: nat, hi: nat) {
    forall k :: lo <= k < hi && k < |evs| ==> evs[k] != Mark(source)
  }

  predicate Cached(st: State, source: Address, s: Slot, v: Word) {
    source in st.values && s in st.values[source] && st.values[source][s] == v
  }

  lemma CachedStep(st: State, e: Event, source: Address, s: Slot, v: Word)
    requires Sound(st) && Cached(st, source, s, v) && e != Mark(source)
    ensures
      var draws := e.Load? && e.account == source && e.slot == s && e.stored == 0 && s !in SlotsOf(st, source);
      Cached(Step(st, e), source, s, if draws then e.random else v)
  {
  }

  lemma {:induction false} CachedHolds(st: State, evs: seq<Event>, source: Address, s: Slot, i: nat, j: nat, v: Word)
    requires Sound(st) && i <= j <= |evs| && Cached(Run(st, evs[..i]), source, s, v) && NotMarked(evs, source, i, j)
    ensures Cached(Run(st, evs[..j]), source, s, Latest(st, evs, source, s, i, j, v))
  {
    if i < j {
      CachedHolds(st, evs, source, s, i, j - 1, v);
      assert evs[..j][..j - 1] == evs[..j - 1];
      CachedStep(Run(st, evs[..j - 1]), evs[j - 1], source, s, Latest(st, evs, source, s, i, j - 1, v));
    }
  }

  /** An untouched reader is served the cached value, unless it is the source, which draws anew;
      either way the value served is cached. */
  lemma ServedCached(st: State, r: Address, s: Slot, random: Word, source: Address)
    requires Sound(st) && s !in SlotsOf(st, r) && ReaderOf(st, r, source)
    ensures
      var (t, v) := Read(st, r, s, 0, random);
      && Cached(t, source, s, v)
      && (forall u :: Cached(st, source, s, u) ==> v == if r == source then random else u)
  {
  }

  lemma ServedThenCached(st: State, evs: seq<Event>, source: Address, s: Slot, i: nat)
    requires Sound(st) && i < |evs| && UntouchedLoad(st, evs, i, source, s)
    ensures Cached(Run(st, evs[..i + 1]), source, s, Served(st, evs, i))
  {
    ServedCached(Run(st, evs[..i]), evs[i].account, s, evs[i].random, source);
    assert evs[..i + 1][..i] == evs[..i];
  }

  /** Coherence, exactly: on every run in which the source is not marked again, what an untouched
      reader is served is the last value the source drew since an earlier untouched reader was
      served, or that reader's value. So two readers agree if and only if that last draw, if any,
      repeats the first one's value. */
  lemma ReadersAgree(st: State, evs: seq<Event>, source: Address, s: Slot, i: nat, j: nat)
    requires Sound(st) && i < j < |evs| && NotMarked(evs, source, i, j)
    requires UntouchedLoad(st, evs, i, source, s) && UntouchedLoad(st, evs, j, source, s)
    ensures Served(st, evs, j) == Latest(st, evs, source, s, i + 1, j + 1, Served(st, evs, i))
    ensures Served(st, evs, j) == Served(st, evs, i) <==>
      Latest(st, evs, source, s, i + 1, j + 1, Served(st, evs, i)) == Served(st, evs, i)
  {
    ServedThenCached(st, evs, source, s, i);
    CachedHolds(st, evs, source, s, i + 1, j, Served(st, evs, i));
    ServedCached(Run(st, evs[..j]), evs[j].account, s, evs[j].random, source);
  }

  /** What the source's own storage holds for the slot after event `e`, if anything. */
  ghost function NextHeld(st: State, e: Event, source: Address, s: Slot, v: Word): Word {
    if e.Store? && e.account == source && e.slot == s then e.value
    else if e.Load? && e.account == source && e.slot == s && s !in SlotsOf(st, source) then
      if e.stored != 0 then e.stored else e.random
    else v
  }

  /** The last value the source wrote, or loaded anew, among events `lo` to `hi - 1`, or `v`. */
  ghost function LatestHeld(st: State, evs: seq<Event>, source: Address, s: Slot, lo: nat, hi: nat, v: Word): Word
    requires Sound(st) && lo <= hi <= |evs|
  {
    if lo == hi then v
    else NextHeld(Run(st, evs[..hi - 1]), evs[hi - 1], source, s, LatestHeld(st, evs, source, s, lo, hi - 1, v))
  }

  predicate Holds(st: State, source: Address, s: Slot, v: Word) {
    && source in st.values && s in st.values[source]
    && (s in SlotsOf(st, source) ==> SlotsOf(st, source)[s] == v)
  }

  lemma HoldsStep(st: State, e: Event, source: Address, s: Slot, v: Word)
    requires Sound(st) && Holds(st, source, s, v) && e != Mark(source)
    ensures Holds(Step(st, e), source, s, NextHeld(st, e, source, s, v))
  {
  }

  lemma {:induction false} HoldsOn(st: State, evs: seq<Event>, source: Address, s: Slot, i: nat, j: nat, v: Word)
    requires Sound(st) && i <= j <= |evs| && Holds(Run(st, evs[..i]), source, s, v) && NotMarked(evs, source, i, j)
    ensures Holds(Run(st, evs[..j]), source, s, LatestHeld(st, evs, source, s, i, j, v))
  {
    if i < j {
      HoldsOn(st, evs, source, s, i, j - 1, v);
      assert evs[..j][..j - 1] == evs[..j - 1];
      HoldsStep(Run(st, evs[..j - 1]), evs[j - 1], source, s, LatestHeld(st, evs, source, s, i, j - 1, v));
    }
  }

  /** A value drawn by the source, or generated through a copy, is also in the source's storage. */
  lemma GeneratedHeld(st: State, r: Address, s: Slot, random: Word, source: Address)
    requires Sound(st) && s !in SlotsOf(st, r) && ReaderOf(st, r, source)
    requires r == source || s !in st.values[source]
    ensures var (t, v) := Read(st, r, s, 0, random); Holds(t, source, s, v)
  {
  }

  /** The source's own reads, exactly: after a value was generated through it or a copy, it reads
      that value until it writes the slot or, having been cooled, loads it anew; then it reads
      what it wrote or loaded last. */
  lemma SourceAgrees(st: State, evs: seq<Event>, source: Address, s: Slot, i: nat, j: nat)
    requires Sound(st) && i < j < |evs| && NotMarked(evs, source, i, j)
    requires UntouchedLoad(st, evs, i, source, s)
    requires evs[i].account == source || s !in Run(st, evs[..i]).values[source]
    requires evs[j].Load? && evs[j].account == source && evs[j].slot == s
    ensures Served(st, evs, j) == LatestHeld(st, evs, source, s, i + 1, j + 1, Served(st, evs, i))
  {
    GeneratedHeld(Run(st, evs[..i]), evs[i].account, s, evs[i].random, source);
    assert evs[..i + 1][..i] == evs[..i];
    HoldsOn(st, evs, source, s, i + 1, j, Served(st, evs, i));
  }

  /* ---------- Copied storage ---------- */

  /** Event `e` changes what is stored for slot `s` of `a`: a store, a cooling, a copy over `a`
      that goes ahead, or a load through a copy of `a` that generates the slot's value. */
  predicate Rewrites(st: State, e: Event, a: Address, s: Slot) {
    match e
    case Mark(_) => false
    case CopyTo(from, to) => to == a && from != a && to !in st.values
    case Load(r, slot, stored, _) =>
      && slot == s && stored == 0 && s !in SlotsOf(st, r)
      && r !in st.values && r in st.copies && st.copies[r] == a && !(a in st.values && s in st.values[a])
    case Store(target, slot, _) => target == a && slot == s
    case Cool(target) => target == a
  }

  /** Slot `s` of `a` is stored, with value `v`. */
  predicate Stored(st: State, a: Address, s: Slot, v: Word) {
    s in SlotsOf(st, a) && SlotsOf(st, a)[s] == v
  }

  lemma KeptStep(st: State, e: Event, a: Address, s: Slot, v: Word)
    requires Sound(st) && Stored(st, a, s, v) && !Rewrites(st, e, a, s)
    ensures Stored(Step(st, e), a, s, v)
  {
  }

  lemma {:induction false} KeptUntil(st: State, evs: seq<Event>, a: Address, s: Slot, v: Word, i: nat, j: nat)
    requires Sound(st) && i <= j <= |evs| && Stored(Run(st, evs[..i]), a, s, v)
    requires forall k :: i <= k < j ==> !Rewrites(Run(st, evs[..k]), evs[k], a, s)
    ensures Stored(Run(st, evs[..j]), a, s, v)
  {
    if i < j {
      KeptUntil(st, evs, a, s, v, i, j - 1);
      assert evs[..j][..j - 1] == evs[..j - 1];
      KeptStep(Run(st, evs[..j - 1]), evs[j - 1], a, s, v);
    }
  }

  /** Event `i` copies over the storage of `to`. */
  ghost predicate CopiesOver(st: State, evs: seq<Event>, i: nat, from: Address, to: Address)
    requires Sound(st) && i < |evs|
  {
    evs[i] == CopyTo(from, to) && to !in Run(st, evs[..i]).values
  }

  /** The copied storage is served, exactly: what the copy reads for a slot its source had at the
      time of copying is the source's value then, until an event rewrites the copy's slot. */
  lemma CopiedUntilRewritten(st: State, evs: seq<Event>, from: Address, to: Address, s: Slot, i: nat, j: nat)
    requires Sound(st) && i < j < |evs| && CopiesOver(st, evs, i, from, to) && s in SlotsOf(Run(st, evs[..i]), from)
    requires forall k :: i < k < j ==> !Rewrites(Run(st, evs[..k]), evs[k], to, s)
    requires evs[j].Load? && evs[j].account == to && evs[j].slot == s
    ensures Served(st, evs, j) == SlotsOf(Run(st, evs[..i]), from)[s]
  {
    assert evs[..i + 1][..i] == evs[..i];
    KeptUntil(st, evs, to, s, SlotsOf(Run(st, evs[..i]), from)[s], i + 1, j);
  }

  lemma UnmarkedStep(st: State, e: Event, a: Address)
    requires Sound(st) && a !in st.values && e != Mark(a)
    ensures a !in Step(st, e).values
  {
  }

  lemma {:induction false} UnmarkedStays(st: State, evs: seq<Event>, a: Address, i: nat, j: nat)
    requires Sound(st) && i <= j <= |evs| && a !in Run(st, evs[..i]).values && NotMarked(evs, a, i, j)
    ensures a !in Run(st, evs[..j]).values
  {
    if i < j {
      UnmarkedStays(st, evs, a, i, j - 1);
      assert evs[..j][..j - 1] == evs[..j - 1];
      UnmarkedStep(Run(st, evs[..j - 1]), evs[j - 1], a);
    }
  }

  /** So a copy that is not itself marked, which it must be to become the source of a further one,
      reads the copied value until it stores to the slot, is cooled or is copied over. */
  lemma CopiedStorageServed(st: State, evs: seq<Event>, from: Address, to: Address, s: Slot, i: nat, j: nat)
    requires Sound(st) && i < j < |evs| && CopiesOver(st, evs, i, from, to) && s in SlotsOf(Run(st, evs[..i]), from)
    requires NotMarked(evs, to, i, j)
    requires forall k :: i < k < j ==> !StoresTo(evs[k], to, s) && evs[k] != Cool(to) && !(evs[k].CopyTo? && evs[k].to == to)
    requires evs[j].Load? && evs[j].account == to && evs[j].slot == s
    ensures Served(st, evs, j) == SlotsOf(Run(st, evs[..i]), from)[s]
  {
    forall k | i < k < j ensures !Rewrites(Run(st, evs[..k]), evs[k], to, s) {
      UnmarkedStays(st, evs, to, i, k);
    }
    CopiedUntilRewritten(st, evs, from, to, s, i, j);
  }

  /** Likewise a stored value is read back. */
  lemma StoredUntilRewritten(st: State, evs: seq<Event>, i: nat, j: nat)
    requires Sound(st) && i < j < |evs| && evs[i].Store?
    requires forall k :: i < k < j ==> !Rewrites(Run(st, evs[..k]), evs[k], evs[i].account, evs[i].slot)
    requires evs[j].Load? && evs[j].account == evs[i].account && evs[j].slot == evs[i].slot
    ensures Served(st, evs, j) == evs[i].value
  {
    assert evs[..i + 1][..i] == evs[..i];
    KeptUntil(st, evs, evs[i].account, evs[i].slot, evs[i].value, i + 1, j);
  }

  lemma UncachedStep(st: State, e: Event, source: Address, s: Slot)
    requires Sound(st) && source in st.values && s !in st.values[source]
    requires !(e.Load? && e.slot == s && e.stored == 0 && s !in SlotsOf(st, e.account) && ReaderOf(st, e.account, source))
    ensures source in Step(st, e).values && s !in Step(st, e).values[source]
  {
  }

  lemma {:induction false} UncachedUntil(st: State, evs: seq<Event>, source: Address, s: Slot, m: nat, i: nat)
    requires Sound(st) && m < i <= |evs| && evs[m] == Mark(source)
    requires forall k :: m < k < i ==> !UntouchedLoad(st, evs, k, source, s)
    ensures source in Run(st, evs[..i]).values && s !in Run(st, evs[..i]).values[source]
  {
    assert evs[..i][..i - 1] == evs[..i - 1];
    if m < i - 1 {
      UncachedUntil(st, evs, source, s, m, i - 1);
      assert !UntouchedLoad(st, evs, i - 1, source, s);
      UncachedStep(Run(st, evs[..i - 1]), evs[i - 1], source, s);
    }
  }

  /** Marking forgets: the first untouched reader of a slot after it is served a new random value. */
  lemma FirstReaderDraws(st: State, evs: seq<Event>, source: Address, s: Slot, m: nat, i: nat)
    requires Sound(st) && m < i < |evs| && evs[m] == Mark(source) && UntouchedLoad(st, evs, i, source, s)
    requires forall k :: m < k < i ==> !UntouchedLoad(st, evs, k, source, s)
    ensures Served(st, evs, i) == evs[i].random
  {
    UncachedUntil(st, evs, source, s, m, i);
  }

  /* ---------- Where coherence ends ---------- */

  /** A load through a copy leaves a value that its source has in storage alone exactly when the
      slot is already cached or the generator happens to repeat that value: a source that wrote
      a slot nobody had loaded has it overwritten. */
  lemma CopyLoadOverwritesSource(st: State, target: Address, s: Slot, random: Word)
    requires Sound(st) && target !in st.values && target in st.copies && s !in SlotsOf(st, target)
    requires s in SlotsOf(st, st.copies[target]) && st.copies[target] != target
    ensures
      var source := st.copies[target];
      var after := Read(st, target, s, 0, random).0;
      && s in SlotsOf(after, source)
      && (SlotsOf(after, source)[s] == SlotsOf(st, source)[s] <==>
          s in st.values[source] || random == SlotsOf(st, source)[s])
  {
  }

  /** This happens: the source writes after being copied, and the copy loads the slot. */
  lemma SourceWriteLost(source: Address, copy: Address, s: Slot, written: Word, random: Word)
    requires source != copy && written != random
    ensures
      var st := Step(Step(Step(State(map[], map[], map[]), Mark(source)), CopyTo(source, copy)), Store(source, s, written));
      var after := Step(st, Load(copy, s, 0, random));
      && s in SlotsOf(st, source) && SlotsOf(st, source)[s] == written
      && s in SlotsOf(after, source) && SlotsOf(after, source)[s] == random
  {
    var s1 := Step(State(map[], map[], map[]), Mark(source));
    var s2 := Step(s1, CopyTo(source, copy));
    assert s2.values[source] == map[] && SlotsOf(s2, copy) == map[];
    var st := Step(s2, Store(source, s, written));
    assert SlotsOf(st, copy) == map[];
    CopyLoadOverwritesSource(st, copy, s, random);
    assert Load(copy, s, 0, random).account == copy;
  }

  /** Cooling the source breaks coherence unless the generator repeats itself: the source draws
      a new value for a settled slot. */
  lemma CoolingUnsettles(st: State, source: Address, s: Slot, v: Word, random: Word)
    requires Sound(st) && Settled(st, source, s, v)
    ensures
      var cooled := Step(st, Cool(source));
      Read(cooled, source, s, 0, random).1 == v <==> random == v
  {
  }

  /** Two copies are served different values: the source is cooled and draws anew in between. */
  lemma CoolingSplitsReaders(source: Address, c1: Address, c2: Address, s: Slot, v: Word, r: Word, x: Word)
    requires source != c1 && source != c2 && c1 != c2
    ensures
      var made := CopyTwice(source, c1, c2);
      var (loaded, first) := Read(made, c1, s, 0, v);
      var (redrawn, own) := Read(Step(loaded, Cool(source)), source, s, 0, r);
      first == v && own == r && Read(redrawn, c2, s, 0, x).1 == r
  {
    var made := CopyTwice(source, c1, c2);
    assert made.values[source] == map[] && SlotsOf(made, c1) == map[] && SlotsOf(made, c2) == map[];
    var loaded := Read(made, c1, s, 0, v).0;
    assert SlotsOf(loaded, c2) == map[] && Cached(loaded, source, s, v);
    var cooled := Step(loaded, Cool(source));
    assert SlotsOf(cooled, source) == map[] && SlotsOf(cooled, c2) == map[];
    ServedCached(cooled, source, s, r, source);
    var redrawn := Read(cooled, source, s, 0, r).0;
    assert SlotsOf(redrawn, c2) == map[] && Cached(redrawn, source, s, r);
    ServedCached(redrawn, c2, s, x, source);
  }

  ghost function CopyTwice(source: Address, c1: Address, c2: Address): (r: State)
    requires source != c1 && source != c2
    ensures Sound(r)
  {
    Step(Step(Step(State(map[], map[], map[]), Mark(source)), CopyTo(source, c1)), CopyTo(source, c2))
  }
}
