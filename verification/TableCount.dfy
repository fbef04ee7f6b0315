/** How many tables an address space lacks on the way to a set of virtual pages (kernel/vm.c walk): the pages of
    memory that mapping them takes beside the pages themselves. */
module TableCount {
  import opened PageTable
  import opened Util

  predicate IsTab(k: Kind, root: nat, level: nat, prefix: nat) {
    k.Tab? && k.root == root && k.level == level && k.prefix == prefix
  }

  ghost predicate HasTab(kind: seq<Kind>, root: nat, level: nat, prefix: nat) {
    exists t :: 0 <= t < |kind| && IsTab(kind[t], root, level, prefix)
  }

  /** In terms of the page table itself: the entry on the way is valid. */
  lemma HasTabMeans(pages: seq<Page>, kind: seq<Kind>, root: nat, v: nat)
    requires Good(pages, kind) && Root(kind, root) && v < NVPN
    ensures HasTab(kind, root, 1, Prefix(1, v)) <==> Top(pages, root, v).valid
    ensures HasTab(kind, root, 0, Prefix(0, v)) <==> Mid(pages, root, v).valid
  {
    Path(pages, kind, root, v);
    Indices(v);
    if Top(pages, root, v).valid {
      assert IsTab(kind[Top(pages, root, v).pa], root, 1, Prefix(1, v));
    }
    if Mid(pages, root, v).valid {
      assert IsTab(kind[Mid(pages, root, v).pa], root, 0, Prefix(0, v));
    }
    if HasTab(kind, root, 1, Prefix(1, v)) {
      var t :| 0 <= t < |kind| && IsTab(kind[t], root, 1, Prefix(1, v));
      assert NamedOk(pages, kind, t, kind[t]);
      var r := kind[t].parent;
      assert PageOk(pages[r], kind[r], r);
    }
    if HasTab(kind, root, 0, Prefix(0, v)) {
      var t :| 0 <= t < |kind| && IsTab(kind[t], root, 0, Prefix(0, v));
      PathTo(pages, kind, t, root, v);
    }
  }

  /** The prefixes of a level under which the pages of want lie, and those among them that have no table. */
  ghost function PrefixesOf(level: nat, want: set<nat>): set<nat> { set v | v in want :: Prefix(level, v) }

  ghost function Lacks(kind: seq<Kind>, root: nat, level: nat, want: set<nat>): set<nat> {
    set p | p in PrefixesOf(level, want) && !HasTab(kind, root, level, p)
  }

  /** How many tables there are to make before all of want can be mapped. */
  ghost function Tables(kind: seq<Kind>, root: nat, want: set<nat>): nat {
    |Lacks(kind, root, 0, want)| + |Lacks(kind, root, 1, want)|
  }

  /** From k0 to k1 exactly the tables on the way to want were added. */
  ghost predicate TabsFor(k0: seq<Kind>, k1: seq<Kind>, root: nat, want: set<nat>) {
    forall l, p :: 0 <= l < 2 ==>
      (HasTab(k1, root, l, p) <==> HasTab(k0, root, l, p) || p in PrefixesOf(l, want))
  }

  lemma TabsForNone(k0: seq<Kind>, root: nat)
    ensures TabsFor(k0, k0, root, {}) && Tables(k0, root, {}) == 0
  {
    assert Lacks(k0, root, 0, {}) == {} && Lacks(k0, root, 1, {}) == {};
  }

  lemma PrefixesJoin(level: nat, a: set<nat>, b: set<nat>)
    ensures PrefixesOf(level, a + b) == PrefixesOf(level, a) + PrefixesOf(level, b)
  {
  }

  lemma LacksSplit(k0: seq<Kind>, k1: seq<Kind>, root: nat, level: nat, a: set<nat>, b: set<nat>)
    requires TabsFor(k0, k1, root, a) && level < 2
    ensures |Lacks(k0, root, level, a + b)| == |Lacks(k0, root, level, a)| + |Lacks(k1, root, level, b)|
  {
    PrefixesJoin(level, a, b);
    assert Lacks(k0, root, level, a + b) == Lacks(k0, root, level, a) + Lacks(k1, root, level, b);
    assert Lacks(k0, root, level, a) !! Lacks(k1, root, level, b);
  }

  /** The tables for a, and then those still lacking for b, are the tables for both. */
  lemma TabsForSplit(k0: seq<Kind>, k1: seq<Kind>, k2: seq<Kind>, root: nat, a: set<nat>, b: set<nat>)
    requires TabsFor(k0, k1, root, a) && TabsFor(k1, k2, root, b)
    ensures TabsFor(k0, k2, root, a + b)
  {
    PrefixesJoin(0, a, b);
    PrefixesJoin(1, a, b);
  }

  lemma TablesSplit(k0: seq<Kind>, k1: seq<Kind>, root: nat, a: set<nat>, b: set<nat>)
    requires TabsFor(k0, k1, root, a)
    ensures Tables(k0, root, a + b) == Tables(k0, root, a) + Tables(k1, root, b)
  {
    LacksSplit(k0, k1, root, 0, a, b);
    LacksSplit(k0, k1, root, 1, a, b);
  }

  lemma TablesMore(kind: seq<Kind>, root: nat, a: set<nat>, b: set<nat>)
    requires a <= b
    ensures Tables(kind, root, a) <= Tables(kind, root, b)
  {
    SubsetSize(Lacks(kind, root, 0, a), Lacks(kind, root, 0, b));
    SubsetSize(Lacks(kind, root, 1, a), Lacks(kind, root, 1, b));
  }

  ghost function Miss(kind: seq<Kind>, root: nat, level: nat, v: nat): nat {
    if HasTab(kind, root, level, Prefix(level, v)) then 0 else 1
  }

  lemma TablesOne(kind: seq<Kind>, root: nat, v: nat)
    ensures Tables(kind, root, {v}) == Miss(kind, root, 1, v) + Miss(kind, root, 0, v)
  {
    LacksOne(kind, root, 0, v);
    LacksOne(kind, root, 1, v);
  }

  lemma LacksOne(kind: seq<Kind>, root: nat, level: nat, v: nat)
    ensures |Lacks(kind, root, level, {v})| == Miss(kind, root, level, v)
  {
    assert PrefixesOf(level, {v}) == {Prefix(level, v)};
    if HasTab(kind, root, level, Prefix(level, v)) {
      assert Lacks(kind, root, level, {v}) == {};
    } else {
      assert Lacks(kind, root, level, {v}) == {Prefix(level, v)};
    }
  }

  // ---------- one step of a walk ----------

  /** One table of the way to v is there, and nothing else is new. */
  ghost predicate Hung(k0: seq<Kind>, k1: seq<Kind>, root: nat, level: nat, v: nat) {
    forall l, p :: 0 <= l < 2 ==>
      (HasTab(k1, root, l, p) <==> HasTab(k0, root, l, p) || (l == level && p == Prefix(level, v)))
  }

  lemma HungNew(k0: seq<Kind>, t: nat, k: Kind, root: nat, level: nat, v: nat)
    requires t < |k0| && !k0[t].Tab? && IsTab(k, root, level, Prefix(level, v))
    ensures Hung(k0, k0[t := k], root, level, v)
  {
    var k1 := k0[t := k];
    forall l, p | 0 <= l < 2
      ensures HasTab(k1, root, l, p) <==> HasTab(k0, root, l, p) || (l == level && p == Prefix(level, v))
    {
      if HasTab(k0, root, l, p) {
        var s :| 0 <= s < |k0| && IsTab(k0[s], root, l, p);
        assert IsTab(k1[s], root, l, p);
      }
      assert IsTab(k1[t], root, level, Prefix(level, v));
      if HasTab(k1, root, l, p) {
        var s :| 0 <= s < |k1| && IsTab(k1[s], root, l, p);
        assert s != t ==> IsTab(k0[s], root, l, p);
      }
    }
  }

  /** Both steps of a walk together. */
  lemma HungBoth(k0: seq<Kind>, k1: seq<Kind>, k2: seq<Kind>, root: nat, v: nat)
    requires Hung(k0, k1, root, 1, v) && Hung(k1, k2, root, 0, v)
    ensures TabsFor(k0, k2, root, {v})
    ensures Tables(k0, root, {v}) == Miss(k0, root, 1, v) + Miss(k1, root, 0, v)
  {
    TablesOne(k0, root, v);
    assert PrefixesOf(0, {v}) == {Prefix(0, v)} && PrefixesOf(1, {v}) == {Prefix(1, v)};
  }

  /** Pages other than tables come and go without changing what is lacking. */
  ghost predicate SameTabs(k0: seq<Kind>, k1: seq<Kind>) {
    |k1| == |k0| && forall t :: 0 <= t < |k0| && (k0[t].Tab? || k1[t].Tab?) ==> k1[t] == k0[t]
  }

  lemma SameTabsFor(k0: seq<Kind>, k1: seq<Kind>, root: nat)
    requires SameTabs(k0, k1)
    ensures TabsFor(k0, k1, root, {})
  {
    forall l, p | 0 <= l < 2
      ensures HasTab(k1, root, l, p) <==> HasTab(k0, root, l, p) || p in PrefixesOf(l, {})
    {
      if HasTab(k0, root, l, p) {
        var s :| 0 <= s < |k0| && IsTab(k0[s], root, l, p);
        assert IsTab(k1[s], root, l, p);
      }
      if HasTab(k1, root, l, p) {
        var s :| 0 <= s < |k1| && IsTab(k1[s], root, l, p);
        assert IsTab(k0[s], root, l, p);
      }
    }
  }

  /** A table is there, or the entry that would name it is invalid. */
  lemma TabThere(kind: seq<Kind>, t: nat, root: nat, level: nat, v: nat)
    requires t < |kind| && IsTab(kind[t], root, level, Prefix(level, v))
    ensures HasTab(kind, root, level, Prefix(level, v)) && Hung(kind, kind, root, level, v)
  {
  }

  lemma TabMissing(pages: seq<Page>, kind: seq<Kind>, t: nat, root: nat, v: nat, level: nat)
    requires Good(pages, kind) && 0 < level <= 2 && v < NVPN
    requires t < |kind| && IsTab(kind[t], root, level, Prefix(level, v)) && !Entry(pages, t, PX(level, v)).valid
    ensures !HasTab(kind, root, level - 1, Prefix(level - 1, v))
  {
    Indices(v);
    assert PageOk(pages[t], kind[t], t);
    if level == 1 {
      assert NamedOk(pages, kind, t, kind[t]);
      var r := kind[t].parent;
      assert PageOk(pages[r], kind[r], r);
    }
    HasTabMeans(pages, kind, root, v);
  }

  /** A walk that ends for want of memory after its first step. */
  lemma WalkShort(k0: seq<Kind>, k1: seq<Kind>, root: nat, v: nat)
    requires Hung(k0, k1, root, 1, v)
    ensures Tables(k0, root, {v}) == Miss(k0, root, 1, v) + Miss(k1, root, 0, v)
  {
    TablesOne(k0, root, v);
  }

  // ---------- runs of pages ----------

  /** Mapping `did` took f0 - f pages of memory, `each` for every page of did beside its tables. */
  ghost predicate Paid(k0: seq<Kind>, f0: nat, k: seq<Kind>, f: nat, root: nat, did: set<nat>, each: nat) {
    TabsFor(k0, k, root, did) && f + each * |did| + Tables(k0, root, did) == f0
  }

  lemma PaidNone(k0: seq<Kind>, f0: nat, root: nat, each: nat)
    ensures Paid(k0, f0, k0, f0, root, {}, each)
  {
    TabsForNone(k0, root);
  }

  lemma PaidOne(k0: seq<Kind>, f0: nat, k1: seq<Kind>, f1: nat, k2: seq<Kind>, f2: nat, root: nat, did: set<nat>,
                v: nat, each: nat)
    requires Paid(k0, f0, k1, f1, root, did, each) && v !in did
    requires TabsFor(k1, k2, root, {v}) && f2 + each + Tables(k1, root, {v}) == f1
    ensures Paid(k0, f0, k2, f2, root, did + {v}, each)
  {
    TabsForSplit(k0, k1, k2, root, did, {v});
    TablesSplit(k0, k1, root, did, {v});
    assert each * (|did| + 1) == each * |did| + each;
  }

  /** Memory that does not do for the next page does not do for all. */
  lemma PaidShort(k0: seq<Kind>, f0: nat, k1: seq<Kind>, f1: nat, root: nat, did: set<nat>, v: nat, each: nat,
                  all: set<nat>)
    requires Paid(k0, f0, k1, f1, root, did, each) && v !in did && did + {v} <= all
    requires f1 < each + Tables(k1, root, {v})
    ensures f0 < each * |all| + Tables(k0, root, all)
  {
    TablesSplit(k0, k1, root, did, {v});
    TablesMore(k0, root, did + {v}, all);
    SubsetSize(did + {v}, all);
    assert each * (|did| + 1) == each * |did| + each;
    MulLess(each, |did| + 1, |all|);
  }

  lemma MulLess(a: nat, b: nat, c: nat)
    requires b <= c
    ensures a * b <= a * c
  {
  }

  /** A change that leaves the tables alone. */
  lemma PaidStill(k0: seq<Kind>, k1: seq<Kind>, k2: seq<Kind>, root: nat, want: set<nat>)
    requires TabsFor(k0, k1, root, want) && SameTabs(k1, k2)
    ensures TabsFor(k0, k2, root, want)
  {
    SameTabsFor(k1, k2, root);
    TabsForSplit(k0, k1, k2, root, want, {});
    assert want + {} == want;
  }

  lemma SameTables(k0: seq<Kind>, k1: seq<Kind>, root: nat, want: set<nat>)
    requires SameTabs(k0, k1)
    ensures Tables(k1, root, want) == Tables(k0, root, want)
  {
    SameTabsFor(k0, k1, root);
    TabsForNone(k0, root);
    TablesSplit(k0, k1, root, {}, want);
    assert {} + want == want;
  }

  lemma SameThenFor(k0: seq<Kind>, k1: seq<Kind>, k2: seq<Kind>, root: nat, want: set<nat>)
    requires SameTabs(k0, k1) && TabsFor(k1, k2, root, want)
    ensures TabsFor(k0, k2, root, want)
  {
    SameTabsFor(k0, k1, root);
    TabsForSplit(k0, k1, k2, root, {}, want);
    assert {} + want == want;
  }

  lemma RangeOn(lo: nat, n: nat)
    ensures Range(lo, n + 1) == Range(lo, n) + {lo + n} && lo + n !in Range(lo, n) && Range(lo, 0) == {}
  {
  }

  lemma RangeWithin(lo: nat, n: nat, m: nat)
    requires n < m
    ensures Range(lo, n) + {lo + n} <= Range(lo, m)
  {
  }
}
