/** Taking an address space apart (freewalk in kernel/vm.c). Once it maps nothing, its tables are a tree that
    no other address space can reach; freewalk frees it bottom up. */
module Teardown {
  import opened PageTable

  /** The tables of root are no longer an address space but a tree to be freed. */
  ghost function Retired(kind: seq<Kind>, root: nat): (r: seq<Kind>)
    ensures |r| == |kind|
    ensures forall p :: 0 <= p < |kind| ==>
                          r[p] == if kind[p].Tab? && kind[p].root == root
                                  then Dead(root, kind[p].level, kind[p].prefix, kind[p].parent) else kind[p]
  {
    seq(|kind|, p requires 0 <= p < |kind| =>
      if kind[p].Tab? && kind[p].root == root then Dead(root, kind[p].level, kind[p].prefix, kind[p].parent)
        else kind[p])
  }

  predicate DeadKind(k: Kind, root: nat) { k.Dead? && k.root == root }

  /** Entries of a dead table are empty or name the dead table below. */
  predicate DeadEntry(kind: seq<Kind>, s: nat, k: Kind, j: nat, e: Pte)
    requires k.Dead?
  {
    e.valid ==> k.level > 0 && !Leafy(e.perm) && e.pa < |kind|
                && kind[e.pa] == Dead(k.root, k.level - 1, k.prefix * ENTRIES + j, s)
  }

  predicate DeadNamed(pages: seq<Page>, kind: seq<Kind>, p: nat, k: Kind)
    requires k.Dead?
  {
    && k.level <= 2 && (k.level == 2 ==> p == k.root && k.prefix == 0)
    && (k.level < 2 ==>
          && k.parent < |kind| && kind[k.parent].Dead? && kind[k.parent].root == k.root
          && kind[k.parent].level == k.level + 1 && kind[k.parent].prefix == k.prefix / ENTRIES
          && Entry(pages, k.parent, k.prefix % ENTRIES).valid && Entry(pages, k.parent, k.prefix % ENTRIES).pa == p)
  }

  /** The tree, with the exception of entry x of table t. */
  ghost predicate TreeBut(pages: seq<Page>, kind: seq<Kind>, root: nat, t: nat, x: nat) {
    && |pages| == |kind|
    && (forall s, j {:trigger Entry(pages, s, j)} ::
          0 <= s < |kind| && DeadKind(kind[s], root) && 0 <= j < ENTRIES && !(s == t && j == x) ==>
            DeadEntry(kind, s, kind[s], j, Entry(pages, s, j)))
    && (forall p :: 0 <= p < |kind| && DeadKind(kind[p], root) ==> DeadNamed(pages, kind, p, kind[p]) && pages[p].Node?)
  }

  ghost predicate Tree(pages: seq<Page>, kind: seq<Kind>, root: nat) { TreeBut(pages, kind, root, 0, ENTRIES) }

  ghost predicate Unmapped(pages: seq<Page>, root: nat) {
    forall v :: 0 <= v < NVPN ==> !Translate(pages, root, v).valid
  }

  /** Retiring an address space that maps nothing. */
  lemma RetireGood(pages: seq<Page>, kind: seq<Kind>, root: nat)
    requires Good(pages, kind) && Root(kind, root) && Unmapped(pages, root)
    ensures Good(pages, Retired(kind, root))
    ensures forall p :: 0 <= p < |kind| && kind[p].Leaf? ==> kind[p].root != root
  {
    var dead := Retired(kind, root);
    forall p | 0 <= p < |kind| && kind[p].Leaf?
      ensures kind[p].root != root
    {
      LeafMapped(pages, kind, p);
    }
    forall s, j | 0 <= s < |dead| && dead[s].Tab? && 0 <= j < ENTRIES
      ensures EntryOk(dead, s, dead[s], j, Entry(pages, s, j))
    {
      assert EntryOk(kind, s, kind[s], j, Entry(pages, s, j));
    }
    forall p | 0 <= p < |kind|
      ensures NamedOk(pages, dead, p, dead[p]) && PageOk(pages[p], dead[p], p)
    {
      assert NamedOk(pages, kind, p, kind[p]) && PageOk(pages[p], kind[p], p);
      if kind[p].Tab? {
        RootOf(pages, kind, p);
      }
    }
  }

  lemma RootOf(pages: seq<Page>, kind: seq<Kind>, p: nat)
    requires Good(pages, kind) && p < |kind| && kind[p].Tab?
    ensures Root(kind, kind[p].root)
  {
    assert NamedOk(pages, kind, p, kind[p]) && PageOk(pages[p], kind[p], p);
    if kind[p].level < 2 {
      var q := kind[p].parent;
      assert NamedOk(pages, kind, q, kind[q]) && PageOk(pages[q], kind[q], q);
      if kind[q].level < 2 {
        var r := kind[q].parent;
        assert PageOk(pages[r], kind[r], r);
      }
    }
  }

  lemma RetireTree(pages: seq<Page>, kind: seq<Kind>, root: nat)
    requires Good(pages, kind) && Root(kind, root) && Unmapped(pages, root)
    ensures Tree(pages, Retired(kind, root), root)
  {
    var dead := Retired(kind, root);
    forall p | 0 <= p < |kind| && DeadKind(dead[p], root)
      ensures kind[p].Tab? && kind[p].root == root && DeadNamed(pages, dead, p, dead[p]) && pages[p].Node?
    {
      assert NamedOk(pages, kind, p, kind[p]) && PageOk(pages[p], kind[p], p);
    }
    forall s, j | 0 <= s < |dead| && DeadKind(dead[s], root) && 0 <= j < ENTRIES
      ensures DeadEntry(dead, s, dead[s], j, Entry(pages, s, j))
    {
      assert EntryOk(kind, s, kind[s], j, Entry(pages, s, j)) && PageOk(pages[s], kind[s], s);
      if kind[s].level == 0 {
        Quotient(kind[s].prefix, j);
        PathTo(pages, kind, s, root, kind[s].prefix * ENTRIES + j);
      }
    }
  }

  // ---------- subtrees ----------

  function Up(x: nat, n: nat): nat { if n == 0 then x else Up(x / ENTRIES, n - 1) }

  /** A page of the subtree that hangs at the given level and prefix. */
  predicate Under(k: Kind, root: nat, level: nat, prefix: nat) {
    DeadKind(k, root) && k.level <= level && Up(k.prefix, level - k.level) == prefix
  }

  lemma UpStep(x: nat, n: nat)
    ensures Up(x, n + 1) == Up(x, n) / ENTRIES
  {
    if n > 0 {
      UpStep(x / ENTRIES, n - 1);
    }
  }

  /** A proper descendant hangs below exactly one of the slots. */
  lemma UnderChild(k: Kind, root: nat, level: nat, prefix: nat, j: nat)
    requires k.Dead? && 0 < level && j < ENTRIES
    ensures Under(k, root, level - 1, prefix * ENTRIES + j) <==>
            Under(k, root, level, prefix) && k.level < level && Up(k.prefix, level - 1 - k.level) % ENTRIES == j
  {
    if k.level < level {
      UpStep(k.prefix, level - 1 - k.level);
      Quotient(prefix, j);
    }
  }

  /** A dead table is determined by its place in the tree. */
  lemma OneTable(pages: seq<Page>, kind: seq<Kind>, root: nat, t: nat, x: nat, p: nat, q: nat)
    requires TreeBut(pages, kind, root, t, x) && p < |kind| && q < |kind|
    requires DeadKind(kind[p], root) && DeadKind(kind[q], root)
    requires kind[p].level == kind[q].level && kind[p].prefix == kind[q].prefix
    ensures p == q
    decreases 2 - kind[p].level
  {
    assert DeadNamed(pages, kind, p, kind[p]) && DeadNamed(pages, kind, q, kind[q]);
    if kind[p].level < 2 {
      OneTable(pages, kind, root, t, x, kind[p].parent, kind[q].parent);
    }
  }

  /** Below an empty slot there is nothing. */
  lemma NoneUnder(pages: seq<Page>, kind: seq<Kind>, root: nat, t: nat, i: nat)
    requires Tree(pages, kind, root) && t < |kind| && DeadKind(kind[t], root) && 0 < kind[t].level && i < ENTRIES
    requires !Entry(pages, t, i).valid
    ensures forall p :: 0 <= p < |kind| ==> !Under(kind[p], root, kind[t].level - 1, kind[t].prefix * ENTRIES + i)
  {
    forall p | 0 <= p < |kind|
      ensures !Under(kind[p], root, kind[t].level - 1, kind[t].prefix * ENTRIES + i)
    {
      if Under(kind[p], root, kind[t].level - 1, kind[t].prefix * ENTRIES + i) {
        NotUnder(pages, kind, root, t, i, p);
      }
    }
  }

  /** Following parents from p ends at slot i of t. */
  lemma NotUnder(pages: seq<Page>, kind: seq<Kind>, root: nat, t: nat, i: nat, p: nat)
    requires Tree(pages, kind, root) && t < |kind| && DeadKind(kind[t], root) && 0 < kind[t].level && i < ENTRIES
             && p < |kind|
    requires Under(kind[p], root, kind[t].level - 1, kind[t].prefix * ENTRIES + i)
    ensures Entry(pages, t, i).valid
    decreases 2 - kind[p].level
  {
    assert DeadNamed(pages, kind, p, kind[p]) && DeadNamed(pages, kind, t, kind[t]);
    Quotient(kind[t].prefix, i);
    var q := kind[p].parent;
    if kind[p].level == kind[t].level - 1 {
      OneTable(pages, kind, root, 0, ENTRIES, q, t);
    } else {
      UpStep(kind[p].prefix, kind[t].level - 1 - kind[p].level - 1);
      assert Up(kind[p].prefix, kind[t].level - 1 - kind[p].level)
          == Up(kind[p].prefix / ENTRIES, kind[t].level - 1 - kind[q].level);
      NotUnder(pages, kind, root, t, i, q);
    }
  }

  // ---------- freeing it ----------

  /** Writing or freeing a dead table concerns no address space. */
  lemma DeadChange(pages: seq<Page>, kind: seq<Kind>, p: nat, page: Page, k: Kind)
    requires Good(pages, kind) && p < |kind| && kind[p].Dead?
    requires (k == kind[p] && page.Node?)
             || (k.Free? && page.Run? && forall q :: 0 <= q < |kind| && q != p && kind[q].Dead? ==> kind[q].root != p)
    ensures Good(pages[p := page], kind[p := k]) && SameMap(kind, pages, pages[p := page])
  {
    var pages', kind' := pages[p := page], kind[p := k];
    forall s, j | 0 <= s < |kind'| && kind'[s].Tab? && 0 <= j < ENTRIES
      ensures EntryOk(kind', s, kind'[s], j, Entry(pages', s, j))
    {
      assert Entry(pages', s, j) == Entry(pages, s, j);
      assert EntryOk(kind, s, kind[s], j, Entry(pages, s, j));
    }
    forall q | 0 <= q < |kind'|
      ensures NamedOk(pages', kind', q, kind'[q])
    {
      assert NamedOk(pages, kind, q, kind[q]);
    }
    forall q | 0 <= q < |kind'|
      ensures PageOk(pages'[q], kind'[q], q)
    {
      assert PageOk(pages[q], kind[q], q);
    }
    DeadUnseen(pages, kind, p, page);
  }

  lemma DeadUnseen(pages: seq<Page>, kind: seq<Kind>, p: nat, page: Page)
    requires Good(pages, kind) && p < |kind| && kind[p].Dead?
    ensures SameMap(kind, pages, pages[p := page])
  {
    var pages' := pages[p := page];
    forall r, v | Root(kind, r) && 0 <= v < NVPN
      ensures Translate(pages', r, v) == Translate(pages, r, v)
    {
      Path(pages, kind, r, v);
      assert Top(pages', r, v) == Top(pages, r, v);
      assert Mid(pages', r, v) == Mid(pages, r, v);
    }
  }

  /** A page in a slot below i of the subtree at (level, prefix). */
  predicate Below(k: Kind, root: nat, level: nat, prefix: nat, i: nat) {
    Under(k, root, level, prefix) && k.level < level && Up(k.prefix, level - 1 - k.level) % ENTRIES < i
  }

  /** freewalk on table t has freed the subtrees below slots 0..i and nothing else. */
  ghost predicate Cut(p0: seq<Page>, k0: seq<Kind>, p1: seq<Page>, k1: seq<Kind>, root: nat, t: nat, i: nat) {
    && |p1| == |k1| == |k0| == |p0| && t < |k0| && DeadKind(k0[t], root)
    && (forall p :: 0 <= p < |k0| ==> k1[p] == if Below(k0[p], root, k0[t].level, k0[t].prefix, i) then Free else k0[p])
    && (forall p :: 0 <= p < |k0| && p != t && !Below(k0[p], root, k0[t].level, k0[t].prefix, i) ==> p1[p] == p0[p])
    && (forall j :: 0 <= j < ENTRIES ==> if j < i then !Entry(p1, t, j).valid else Entry(p1, t, j) == Entry(p0, t, j))
  }

  /** freewalk has freed exactly the subtree at (level, prefix). */
  ghost predicate Gone(p0: seq<Page>, k0: seq<Kind>, p1: seq<Page>, k1: seq<Kind>, root: nat, level: nat, prefix: nat) {
    && |p1| == |k1| == |k0| == |p0|
    && (forall p :: 0 <= p < |k0| ==> k1[p] == if Under(k0[p], root, level, prefix) then Free else k0[p])
    && (forall p :: 0 <= p < |k0| && !Under(k0[p], root, level, prefix) ==> p1[p] == p0[p])
  }

  lemma CutStart(p0: seq<Page>, k0: seq<Kind>, root: nat, t: nat)
    requires |p0| == |k0| && t < |k0| && DeadKind(k0[t], root)
    ensures Cut(p0, k0, p0, k0, root, t, 0)
  {
  }

  /** An empty slot is passed over. */
  lemma CutSkip(p0: seq<Page>, k0: seq<Kind>, p1: seq<Page>, k1: seq<Kind>, root: nat, t: nat, i: nat)
    requires Cut(p0, k0, p1, k1, root, t, i) && Tree(p1, k1, root) && i < ENTRIES && !Entry(p1, t, i).valid && t < |p1|
    ensures Cut(p0, k0, p1, k1, root, t, i + 1)
  {
    var level, prefix := k0[t].level, k0[t].prefix;
    assert k1[t] == k0[t];
    forall p | 0 <= p < |k0|
      ensures Below(k0[p], root, level, prefix, i + 1) == Below(k0[p], root, level, prefix, i)
    {
      if k0[p].Dead? && 0 < level {
        UnderChild(k0[p], root, level, prefix, i);
        NoneUnder(p1, k1, root, t, i);
        assert !Under(k1[p], root, level - 1, prefix * ENTRIES + i);
      }
    }
  }

  /** A slot whose subtree has just been freed and which is then cleared. */
  lemma CutStep(p0: seq<Page>, k0: seq<Kind>, p1: seq<Page>, k1: seq<Kind>, p2: seq<Page>, k2: seq<Kind>, root: nat,
                t: nat, i: nat)
    requires Cut(p0, k0, p1, k1, root, t, i) && i < ENTRIES && 0 < k0[t].level
    requires Gone(p1, k1, p2, k2, root, k0[t].level - 1, k0[t].prefix * ENTRIES + i) && p2[t].Node?
    ensures Cut(p0, k0, SetPte(p2, t, i, NOPTE), k2, root, t, i + 1)
  {
    var level, prefix, p3 := k0[t].level, k0[t].prefix, SetPte(p2, t, i, NOPTE);
    forall p | 0 <= p < |k0|
      ensures k2[p] == if Below(k0[p], root, level, prefix, i + 1) then Free else k0[p]
      ensures p != t && !Below(k0[p], root, level, prefix, i + 1) ==> p3[p] == p0[p]
    {
      if k0[p].Dead? {
        UnderChild(k0[p], root, level, prefix, i);
      }
    }
    assert !Under(k1[t], root, level - 1, prefix * ENTRIES + i);
    forall j | 0 <= j < ENTRIES
      ensures if j < i + 1 then !Entry(p3, t, j).valid else Entry(p3, t, j) == Entry(p0, t, j)
    {
      EntrySet(p2, t, i, NOPTE, t, j);
      assert Entry(p2, t, j) == Entry(p1, t, j);
    }
  }

  /** Clearing the exceptional entry makes the rest a tree again. */
  lemma TreeMended(pages: seq<Page>, kind: seq<Kind>, root: nat, t: nat, i: nat)
    requires TreeBut(pages, kind, root, t, i) && t < |pages| && pages[t].Node? && i < ENTRIES
    requires forall p :: 0 <= p < |kind| && DeadKind(kind[p], root) && kind[p].level < 2 ==>
                           !(kind[p].parent == t && kind[p].prefix % ENTRIES == i)
    ensures Tree(SetPte(pages, t, i, NOPTE), kind, root)
  {
    var pages' := SetPte(pages, t, i, NOPTE);
    forall s, j | 0 <= s < |kind| && DeadKind(kind[s], root) && 0 <= j < ENTRIES
      ensures DeadEntry(kind, s, kind[s], j, Entry(pages', s, j))
    {
      EntrySet(pages, t, i, NOPTE, s, j);
      assert !(s == t && j == i) ==> DeadEntry(kind, s, kind[s], j, Entry(pages, s, j));
    }
    forall p | 0 <= p < |kind| && DeadKind(kind[p], root)
      ensures DeadNamed(pages', kind, p, kind[p]) && pages'[p].Node?
    {
      assert DeadNamed(pages, kind, p, kind[p]);
    }
  }

  /** Freeing table t, whose subtree is gone, leaves a tree but for the slot that named t. */
  lemma TreeLoses(pages: seq<Page>, kind: seq<Kind>, root: nat, t: nat, page: Page)
    requires Tree(pages, kind, root) && t < |kind| && DeadKind(kind[t], root)
    requires forall p :: 0 <= p < |kind| && DeadKind(kind[p], root) && kind[p].level < 2 ==> kind[p].parent != t
    ensures TreeBut(pages[t := page], kind[t := Free], root, kind[t].parent, kind[t].prefix % ENTRIES)
  {
    var pages', kind' := pages[t := page], kind[t := Free];
    forall s, j | 0 <= s < |kind'| && DeadKind(kind'[s], root) && 0 <= j < ENTRIES
                  && !(s == kind[t].parent && j == kind[t].prefix % ENTRIES)
      ensures DeadEntry(kind', s, kind'[s], j, Entry(pages', s, j))
    {
      assert Entry(pages', s, j) == Entry(pages, s, j);
      assert DeadEntry(kind, s, kind[s], j, Entry(pages, s, j));
      Quotient(kind[s].prefix, j);
    }
    forall p | 0 <= p < |kind'| && DeadKind(kind'[p], root)
      ensures DeadNamed(pages', kind', p, kind'[p]) && pages'[p].Node?
    {
      assert DeadNamed(pages, kind, p, kind[p]);
    }
  }

  /** Every table of the tree hangs below its root. */
  lemma UnderRoot(pages: seq<Page>, kind: seq<Kind>, root: nat, p: nat)
    requires Tree(pages, kind, root) && p < |kind| && DeadKind(kind[p], root)
    ensures Under(kind[p], root, 2, 0)
    decreases 2 - kind[p].level
  {
    assert DeadNamed(pages, kind, p, kind[p]);
    if kind[p].level < 2 {
      var q := kind[p].parent;
      UnderRoot(pages, kind, root, q);
      assert Up(kind[p].prefix, 2 - kind[p].level) == Up(kind[p].prefix / ENTRIES, 2 - kind[q].level);
    }
  }

  /** When all slots of t are done, t is what is left of its subtree, and nothing hangs below it. */
  lemma LastOne(p0: seq<Page>, k0: seq<Kind>, p1: seq<Page>, k1: seq<Kind>, root: nat, t: nat)
    requires Cut(p0, k0, p1, k1, root, t, ENTRIES) && Tree(p0, k0, root) && Tree(p1, k1, root) && Good(p1, k1)
    ensures k1[t] == k0[t]
    ensures forall p :: 0 <= p < |k0| && p != t && Under(k0[p], root, k0[t].level, k0[t].prefix) ==> k1[p].Free?
    ensures forall p :: 0 <= p < |k1| && DeadKind(k1[p], root) && k1[p].level < 2 ==> k1[p].parent != t
    ensures forall q :: 0 <= q < |k1| && q != t && k1[q].Dead? ==> k1[q].root != t
  {
    var level, prefix := k0[t].level, k0[t].prefix;
    forall p | 0 <= p < |k0| && p != t && Under(k0[p], root, level, prefix)
      ensures k1[p].Free?
    {
      if k0[p].level == level {
        OneTable(p0, k0, root, 0, ENTRIES, p, t);
      }
    }
    forall p | 0 <= p < |k1| && DeadKind(k1[p], root) && k1[p].level < 2
      ensures k1[p].parent != t
    {
      assert DeadNamed(p1, k1, p, k1[p]);
      assert Up(k1[p].prefix, 1) == k1[p].prefix / ENTRIES;
    }
    forall q | 0 <= q < |k1| && q != t && k1[q].Dead?
      ensures k1[q].root != t
    {
      assert NamedOk(p1, k1, q, k1[q]) && NamedOk(p1, k1, t, k1[t]);
      if k1[q].root == t {
        UnderRoot(p0, k0, root, q);
      }
    }
  }

  /** No dead table is left in slot i of t once the subtree there is gone. */
  lemma SlotEmpty(p1: seq<Page>, k1: seq<Kind>, p2: seq<Page>, k2: seq<Kind>, root: nat, t: nat, i: nat)
    requires Tree(p1, k1, root) && t < |k1| && DeadKind(k1[t], root) && 0 < k1[t].level && i < ENTRIES
    requires Gone(p1, k1, p2, k2, root, k1[t].level - 1, k1[t].prefix * ENTRIES + i)
    ensures |p2| == |k2| == |k1| && k2[t] == k1[t] && p2[t] == p1[t]
    ensures forall p :: 0 <= p < |k2| && DeadKind(k2[p], root) && k2[p].level < 2 ==>
                          !(k2[p].parent == t && k2[p].prefix % ENTRIES == i)
  {
    var level, prefix := k1[t].level, k1[t].prefix;
    assert !Under(k1[t], root, level - 1, prefix * ENTRIES + i);
    forall p | 0 <= p < |k2| && DeadKind(k2[p], root) && k2[p].level < 2
      ensures !(k2[p].parent == t && k2[p].prefix % ENTRIES == i)
    {
      assert DeadNamed(p1, k1, p, k1[p]);
      assert k1[p].prefix == k1[p].prefix / ENTRIES * ENTRIES + k1[p].prefix % ENTRIES;
    }
  }

  /** Translations of the living address spaces over two steps that free dead tables. */
  lemma SameOver(k0: seq<Kind>, p0: seq<Page>, k1: seq<Kind>, p1: seq<Page>, p2: seq<Page>)
    requires SameMap(k0, p0, p1) && SameMap(k1, p1, p2) && |k1| == |k0|
    requires forall p :: 0 <= p < |k0| && k0[p].Tab? ==> k1[p] == k0[p]
    ensures SameMap(k0, p0, p2)
  {
    forall r, v | Root(k0, r) && 0 <= v < NVPN
      ensures Translate(p2, r, v) == Translate(p0, r, v)
    {
      assert Root(k1, r);
      assert Translate(p1, r, v) == Translate(p0, r, v);
    }
  }

  lemma CutGone(p0: seq<Page>, k0: seq<Kind>, p1: seq<Page>, k1: seq<Kind>, root: nat, t: nat, page: Page)
    requires Cut(p0, k0, p1, k1, root, t, ENTRIES)
    requires forall p :: 0 <= p < |k0| && p != t && Under(k0[p], root, k0[t].level, k0[t].prefix) ==> k1[p].Free?
    ensures Gone(p0, k0, p1[t := page], k1[t := Free], root, k0[t].level, k0[t].prefix)
  {
    assert Under(k0[t], root, k0[t].level, k0[t].prefix);
  }

  lemma TabsKept(p0: seq<Page>, k0: seq<Kind>, p1: seq<Page>, k1: seq<Kind>, root: nat, t: nat, i: nat)
    requires Cut(p0, k0, p1, k1, root, t, i)
    ensures forall p :: 0 <= p < |k0| && k0[p].Tab? ==> k1[p] == k0[p]
    ensures k1[t] == k0[t]
  {
  }

  lemma TabsStill(p0: seq<Page>, k0: seq<Kind>, p1: seq<Page>, k1: seq<Kind>, root: nat, level: nat, prefix: nat)
    requires Gone(p0, k0, p1, k1, root, level, prefix)
    ensures forall p :: 0 <= p < |k0| && k0[p].Tab? ==> k1[p] == k0[p]
  {
  }

  lemma ChildIs(pages: seq<Page>, kind: seq<Kind>, root: nat, t: nat, i: nat)
    requires Tree(pages, kind, root) && t < |kind| && DeadKind(kind[t], root) && i < ENTRIES
    ensures pages[t].Node?
    ensures var e := Entry(pages, t, i);
            e.valid ==> kind[t].level > 0 && !Leafy(e.perm) && e.pa < |kind| && e.pa != t
                        && kind[e.pa] == Dead(root, kind[t].level - 1, kind[t].prefix * ENTRIES + i, t)
  {
    assert DeadEntry(kind, t, kind[t], i, Entry(pages, t, i));
  }
}
