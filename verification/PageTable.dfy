/** Physical pages and three-level page tables of kernel/vm.c and kernel/kalloc.c as data: what a page
    holds, who owns it, and the flat map from virtual page numbers that the tables stand for. Addresses are
    page numbers; a page in use as a table is seen as 512 entries. */
module PageTable {
  import opened Util

  const ENTRIES: nat := 512
  const PGSIZE: nat := 4096
  const NVPN: nat := 0x400_0000          // MAXVA / PGSIZE
  const USERTOP: nat := 0x3ff_fffe       // page number of TRAPFRAME; the trampoline is the page above

  type Bytes = b: seq<byte> | |b| == PGSIZE witness seq(PGSIZE, _ => 0)

  datatype Perm = Perm(r: bool, w: bool, x: bool, u: bool)

  /** The walker takes an entry for a leaf when it grants any of read, write, execute. */
  predicate Leafy(p: Perm) { p.r || p.w || p.x }

  const NOPERM := Perm(false, false, false, false)

  datatype Pte = Pte(valid: bool, pa: nat, perm: Perm)

  const NOPTE := Pte(false, 0, NOPERM)

  type Ptes = t: seq<Pte> | |t| == ENTRIES witness seq(ENTRIES, _ => NOPTE)

  function Empty(): (t: Ptes)
    ensures forall i :: 0 <= i < ENTRIES ==> t[i] == NOPTE
  { seq(ENTRIES, _ => NOPTE) }

  /** A page filled with one byte, as memset leaves it. */
  function Filled(b: byte): (r: Bytes)
    ensures forall i :: 0 <= i < PGSIZE ==> r[i] == b
  { seq(PGSIZE, _ => b) }

  /** A page on the free list holds the link to the next one. */
  datatype Page = Run(next: nat) | Node(ptes: Ptes) | Data(bytes: Bytes)

  /** Who owns a page: nobody kalloc knows, the free list, the code that has just allocated it, an address
      space as a table (covering the virtual pages with this prefix) or as the memory of a user page. */
  datatype Kind = Outside | Free | Held
                | Tab(root: nat, level: nat, prefix: nat, parent: nat)
                | Leaf(root: nat, vpn: nat, parent: nat)
                | Dead(root: nat, level: nat, prefix: nat, parent: nat)   // a table being torn down by freewalk

  // ---------- the flat map ----------

  function Entry(pages: seq<Page>, t: nat, i: nat): Pte {
    if t < |pages| && pages[t].Node? && i < ENTRIES then pages[t].ptes[i] else NOPTE
  }

  function Index2(v: nat): nat { v / 0x4_0000 }

  function Index1(v: nat): nat { v / 0x200 % ENTRIES }

  function Index0(v: nat): nat { v % ENTRIES }

  function Top(pages: seq<Page>, root: nat, v: nat): Pte { Entry(pages, root, Index2(v)) }

  function Mid(pages: seq<Page>, root: nat, v: nat): Pte {
    if Top(pages, root, v).valid then Entry(pages, Top(pages, root, v).pa, Index1(v)) else NOPTE
  }

  /** The entry the hardware would use for virtual page v, invalid where there is none. */
  function Translate(pages: seq<Page>, root: nat, v: nat): Pte {
    if Mid(pages, root, v).valid then Entry(pages, Mid(pages, root, v).pa, Index0(v)) else NOPTE
  }

  /** The index a walk uses at a level, and the prefix of v that a table of that level stands for. */
  function PX(level: nat, v: nat): nat { if level == 2 then Index2(v) else if level == 1 then Index1(v) else Index0(v) }

  function Prefix(level: nat, v: nat): nat { if level >= 2 then 0 else if level == 1 then Index2(v) else v / 0x200 }

  // ---------- ownership ----------

  predicate Root(kind: seq<Kind>, r: nat) { r < |kind| && kind[r] == Tab(r, 2, 0, 0) }

  predicate PageOk(page: Page, k: Kind, p: nat) {
    && (k.Free? ==> page.Run?)
    && (k.Held? ==> page.Data?)
    && (k.Leaf? ==> page.Data? && k.vpn < USERTOP)
    && (k.Tab? ==> page.Node? && k.level <= 2 && k.prefix < Prefixes(k.level))
    && (k.Tab? && k.level == 2 ==> k == Tab(p, 2, 0, 0))
    && (k.Dead? ==> page.Node?)
  }

  /** How many tables of a level an address space can have. */
  function Prefixes(level: nat): nat {
    if level == 0 then NVPN / 0x200 else if level == 1 then NVPN / 0x4_0000 else 1
  }

  /** A valid entry names the page that is registered under it; leaves from TRAPFRAME up are shared pages,
      out of reach for user code. */
  predicate EntryOk(kind: seq<Kind>, t: nat, k: Kind, i: nat, e: Pte)
    requires k.Tab?
  {
    if !e.valid then e == NOPTE
    else if k.level > 0
    then !Leafy(e.perm) && e.pa < |kind| && kind[e.pa] == Tab(k.root, k.level - 1, k.prefix * ENTRIES + i, t)
    else if k.prefix * ENTRIES + i < USERTOP
    then Leafy(e.perm) && e.pa < |kind| && kind[e.pa] == Leaf(k.root, k.prefix * ENTRIES + i, t)
    else Leafy(e.perm) && !e.perm.u
  }

  /** A registered page is named by the entry it is registered under. */
  predicate NamedOk(pages: seq<Page>, kind: seq<Kind>, p: nat, k: Kind) {
    && (k.Tab? && k.level < 2 ==>
          && k.parent < |kind| && kind[k.parent].Tab? && kind[k.parent].root == k.root
          && kind[k.parent].level == k.level + 1 && kind[k.parent].prefix == k.prefix / ENTRIES
          && Entry(pages, k.parent, k.prefix % ENTRIES).valid && Entry(pages, k.parent, k.prefix % ENTRIES).pa == p)
    && (k.Leaf? ==>
          && k.parent < |kind| && kind[k.parent].Tab? && kind[k.parent].root == k.root
          && kind[k.parent].level == 0 && kind[k.parent].prefix == k.vpn / ENTRIES
          && Entry(pages, k.parent, k.vpn % ENTRIES).valid && Entry(pages, k.parent, k.vpn % ENTRIES).pa == p)
    && (k.Dead? ==> k.root < |kind| && kind[k.root] == Dead(k.root, 2, 0, 0))
  }

  ghost predicate Typed(pages: seq<Page>, kind: seq<Kind>) {
    |pages| == |kind| && forall p :: 0 <= p < |kind| ==> PageOk(pages[p], kind[p], p)
  }

  ghost predicate Entries(pages: seq<Page>, kind: seq<Kind>) {
    forall s, j {:trigger Entry(pages, s, j)} ::
      0 <= s < |kind| && kind[s].Tab? && 0 <= j < ENTRIES ==> EntryOk(kind, s, kind[s], j, Entry(pages, s, j))
  }

  ghost predicate Named(pages: seq<Page>, kind: seq<Kind>) {
    forall p :: 0 <= p < |kind| ==> NamedOk(pages, kind, p, kind[p])
  }

  ghost predicate Good(pages: seq<Page>, kind: seq<Kind>) {
    Typed(pages, kind) && Entries(pages, kind) && Named(pages, kind)
  }

  /** The free list: a linked stack of exactly the free pages, each once. */
  ghost predicate FreeOk(pages: seq<Page>, kind: seq<Kind>, head: nat, free: seq<nat>) {
    && |pages| == |kind|
    && head == (if |free| == 0 then 0 else free[|free| - 1])
    && (forall j :: 0 <= j < |free| ==> 0 < free[j] < |kind| && kind[free[j]].Free?)
    && (forall i, j :: 0 <= i < j < |free| ==> free[i] != free[j])
    && (forall p :: 0 <= p < |kind| && kind[p].Free? ==> p in free)
    && (forall i, j :: 0 <= i < |free| && 0 <= j < |free| && j == i + 1 ==> pages[free[j]] == Run(free[i]))
    && (|free| > 0 ==> pages[free[0]] == Run(0))
  }

  // ---------- paths ----------

  lemma Indices(v: nat)
    requires v < NVPN
    ensures Index2(v) < ENTRIES
    ensures Index2(v) * ENTRIES + Index1(v) == v / 0x200
    ensures v / 0x200 * ENTRIES + Index0(v) == v
    ensures v / 0x200 / ENTRIES == Index2(v) && v / 0x200 % ENTRIES == Index1(v)
  {
  }

  /** What the walk for v meets on the way down. */
  lemma Path(pages: seq<Page>, kind: seq<Kind>, root: nat, v: nat)
    requires Good(pages, kind) && Root(kind, root) && v < NVPN
    ensures var e := Top(pages, root, v);
            e.valid ==> e.pa < |kind| && kind[e.pa] == Tab(root, 1, Index2(v), root)
    ensures var e := Mid(pages, root, v);
            e.valid ==> e.pa < |kind| && kind[e.pa] == Tab(root, 0, v / 0x200, Top(pages, root, v).pa)
    ensures var e := Translate(pages, root, v);
            if !e.valid then e == NOPTE
            else Leafy(e.perm)
                 && (if v < USERTOP then e.pa < |kind| && kind[e.pa] == Leaf(root, v, Mid(pages, root, v).pa)
                    else !e.perm.u)
  {
    Indices(v);
    assert EntryOk(kind, root, kind[root], Index2(v), Top(pages, root, v));
    var t1 := Top(pages, root, v).pa;
    if Top(pages, root, v).valid {
      assert EntryOk(kind, t1, kind[t1], Index1(v), Entry(pages, t1, Index1(v)));
      if Mid(pages, root, v).valid {
        var t0 := Mid(pages, root, v).pa;
        assert EntryOk(kind, t0, kind[t0], Index0(v), Entry(pages, t0, Index0(v)));
      }
    }
  }

  /** A table registered at level 0 for v's prefix is the one the walk for v reaches. */
  lemma PathTo(pages: seq<Page>, kind: seq<Kind>, t: nat, root: nat, v: nat)
    requires Good(pages, kind) && t < |kind| && kind[t].Tab? && kind[t].root == root
    requires kind[t].level == 0 && kind[t].prefix == v / 0x200 && v < NVPN
    ensures Root(kind, root) && Mid(pages, root, v).valid && Mid(pages, root, v).pa == t
    ensures Translate(pages, root, v) == Entry(pages, t, Index0(v))
  {
    Indices(v);
    assert NamedOk(pages, kind, t, kind[t]);
    var t1 := kind[t].parent;
    assert NamedOk(pages, kind, t1, kind[t1]);
    var r := kind[t1].parent;
    assert PageOk(pages[r], kind[r], r);
  }

  /** A walk that meets an invalid entry has no translation to find. */
  lemma DeadEnd(pages: seq<Page>, kind: seq<Kind>, t: nat, root: nat, v: nat, level: nat)
    requires Good(pages, kind) && 0 < level <= 2 && v < NVPN
    requires t < |kind| && kind[t].Tab? && kind[t].root == root && kind[t].level == level
             && kind[t].prefix == Prefix(level, v)
    requires !Entry(pages, t, PX(level, v)).valid
    ensures !Translate(pages, root, v).valid
  {
    Indices(v);
    assert PageOk(pages[t], kind[t], t);
    if level == 1 {
      assert NamedOk(pages, kind, t, kind[t]);
      var r := kind[t].parent;
      assert PageOk(pages[r], kind[r], r);
    }
  }

  lemma PrefixStep(v: nat, level: nat)
    requires v < NVPN && 0 < level <= 2
    ensures PX(level, v) < ENTRIES && Prefix(level, v) * ENTRIES + PX(level, v) == Prefix(level - 1, v)
    ensures Prefix(level - 1, v) < Prefixes(level - 1)
  {
    Indices(v);
  }

  /** User pages are owned: a registered page is what its virtual page translates to. */
  lemma LeafMapped(pages: seq<Page>, kind: seq<Kind>, p: nat)
    requires Good(pages, kind) && p < |kind| && kind[p].Leaf?
    ensures var k := kind[p];
            Root(kind, k.root) && k.vpn < USERTOP
            && Translate(pages, k.root, k.vpn).valid && Translate(pages, k.root, k.vpn).pa == p
            && Mid(pages, k.root, k.vpn).valid && Mid(pages, k.root, k.vpn).pa == k.parent
  {
    assert PageOk(pages[p], kind[p], p) && NamedOk(pages, kind, p, kind[p]);
    PathTo(pages, kind, kind[p].parent, kind[p].root, kind[p].vpn);
  }

  /** No physical page is mapped at two places below TRAPFRAME, in one address space or in two. */
  lemma NoAlias(pages: seq<Page>, kind: seq<Kind>, r: nat, v: nat, s: nat, w: nat)
    requires Good(pages, kind) && Root(kind, r) && Root(kind, s) && v < USERTOP && w < USERTOP
    requires Translate(pages, r, v).valid && Translate(pages, s, w).valid
    requires Translate(pages, r, v).pa == Translate(pages, s, w).pa
    ensures r == s && v == w
  {
    Path(pages, kind, r, v);
    Path(pages, kind, s, w);
  }

  // ---------- what a change of one entry or page does ----------

  function SetPte(pages: seq<Page>, t: nat, i: nat, e: Pte): seq<Page>
    requires t < |pages| && pages[t].Node? && i < ENTRIES
  { pages[t := Node(pages[t].ptes[i := e])] }

  lemma EntrySet(pages: seq<Page>, t: nat, i: nat, e: Pte, s: nat, j: nat)
    requires t < |pages| && pages[t].Node? && i < ENTRIES
    ensures Entry(SetPte(pages, t, i, e), s, j) == if s == t && j == i then e else Entry(pages, s, j)
  {
  }

  ghost predicate SameMap(kind: seq<Kind>, pages: seq<Page>, pages': seq<Page>) {
    forall s, w {:trigger Translate(pages', s, w)} ::
      Root(kind, s) && 0 <= w < NVPN ==> Translate(pages', s, w) == Translate(pages, s, w)
  }

  /** Only virtual pages lo..hi of one address space may translate differently. */
  ghost predicate SameMapBut(kind: seq<Kind>, pages: seq<Page>, pages': seq<Page>, root: nat, lo: nat, hi: nat) {
    forall s, w {:trigger Translate(pages', s, w)} ::
      Root(kind, s) && 0 <= w < NVPN && !(s == root && lo <= w < hi) ==>
          Translate(pages', s, w) == Translate(pages, s, w)
  }

  lemma SameEntries(pages: seq<Page>, pages': seq<Page>, r: nat, v: nat)
    requires forall t, i {:trigger Entry(pages', t, i)} :: 0 <= t && 0 <= i ==>
               Entry(pages', t, i) == Entry(pages, t, i)
    ensures Translate(pages', r, v) == Translate(pages, r, v)
  {
  }

  /** Moving a page that is no table between the free list and the code at hand, or writing user data. */
  lemma PlainChange(pages: seq<Page>, kind: seq<Kind>, p: nat, page: Page, k: Kind)
    requires Good(pages, kind) && p < |kind|
    requires kind[p].Free? || kind[p].Held? || (kind[p].Leaf? && k == kind[p])
    requires (k.Free? && page.Run?) || (k.Held? && page.Data?) || (k == kind[p] && k.Leaf? && page.Data?)
    ensures Good(pages[p := page], kind[p := k]) && SameMap(kind, pages, pages[p := page])
  {
    var pages', kind' := pages[p := page], kind[p := k];
    assert PageOk(pages[p], kind[p], p);
    assert forall t, i {:trigger Entry(pages', t, i)} :: 0 <= t && 0 <= i ==> Entry(pages', t, i) == Entry(pages, t, i);
    forall r, v | Root(kind, r) && 0 <= v < NVPN
      ensures Translate(pages', r, v) == Translate(pages, r, v)
    {
      SameEntries(pages, pages', r, v);
    }
    forall t, i | 0 <= t < |kind'| && kind'[t].Tab? && 0 <= i < ENTRIES
      ensures EntryOk(kind', t, kind'[t], i, Entry(pages', t, i))
    {
      assert EntryOk(kind, t, kind[t], i, Entry(pages, t, i));
    }
    forall q | 0 <= q < |kind'|
      ensures NamedOk(pages', kind', q, kind'[q])
    {
      assert NamedOk(pages, kind, q, kind[q]);
    }
    forall q | 0 <= q < |kind'|
      ensures PageOk(pages'[q], kind'[q], q)
    {
      assert PageOk(pages[q], kind[q], q);
    }
  }

  function WithTable(pages: seq<Page>, t: nat, i: nat, p: nat): seq<Page>
    requires t < |pages| && p < |pages| && t != p && pages[t].Node? && i < ENTRIES
  {
    var named := SetPte(pages, t, i, Pte(true, p, NOPERM));
    named[p := Node(Empty())]
  }

  lemma WithTableEntry(pages: seq<Page>, t: nat, i: nat, p: nat, s: nat, j: nat)
    requires t < |pages| && p < |pages| && t != p && pages[t].Node? && i < ENTRIES && !pages[p].Node?
    ensures Entry(WithTable(pages, t, i, p), s, j) == if s == t && j == i then Pte(true, p, NOPERM)
            else Entry(pages, s, j)
  {
  }

  /** walk hanging a fresh empty table into slot i of table t: no translation changes. */
  lemma AddTable(pages: seq<Page>, kind: seq<Kind>, t: nat, i: nat, p: nat)
    requires Good(pages, kind) && p < |kind| && kind[p].Held?
    requires t < |kind| && kind[t].Tab? && kind[t].level > 0 && i < ENTRIES && !Entry(pages, t, i).valid
    requires kind[t].prefix * ENTRIES + i < Prefixes(kind[t].level - 1)
    ensures pages[t].Node? && t != p
    ensures var pages' := WithTable(pages, t, i, p);
            var kind' := kind[p := Tab(kind[t].root, kind[t].level - 1, kind[t].prefix * ENTRIES + i, t)];
            Good(pages', kind') && SameMap(kind, pages, pages')
  {
    assert PageOk(pages[t], kind[t], t) && PageOk(pages[p], kind[p], p);
    var k := Tab(kind[t].root, kind[t].level - 1, kind[t].prefix * ENTRIES + i, t);
    var pages', kind' := WithTable(pages, t, i, p), kind[p := k];
    AddTableEntries(pages, kind, t, i, p);
    AddTableNamed(pages, kind, t, i, p);
    forall q | 0 <= q < |kind'|
      ensures PageOk(pages'[q], kind'[q], q)
    {
      assert PageOk(pages[q], kind[q], q);
    }
    AddTableMap(pages, kind, t, i, p);
  }

  lemma AddTableEntries(pages: seq<Page>, kind: seq<Kind>, t: nat, i: nat, p: nat)
    requires Entries(pages, kind) && p < |kind| == |pages| && kind[p].Held? && !pages[p].Node?
    requires t < |kind| && kind[t].Tab? && kind[t].level > 0 && i < ENTRIES && pages[t].Node?
    ensures var pages', kind' := WithTable(pages, t, i, p),
                                 kind[p := Tab(kind[t].root, kind[t].level - 1, kind[t].prefix * ENTRIES + i, t)];
            Entries(pages', kind')
  {
    var k := Tab(kind[t].root, kind[t].level - 1, kind[t].prefix * ENTRIES + i, t);
    var pages', kind' := WithTable(pages, t, i, p), kind[p := k];
    forall s, j | 0 <= s < |kind'| && kind'[s].Tab? && 0 <= j < ENTRIES
      ensures EntryOk(kind', s, kind'[s], j, Entry(pages', s, j))
    {
      WithTableEntry(pages, t, i, p, s, j);
      assert s != p ==> EntryOk(kind, s, kind[s], j, Entry(pages, s, j));
    }
  }

  lemma AddTableNamed(pages: seq<Page>, kind: seq<Kind>, t: nat, i: nat, p: nat)
    requires Named(pages, kind) && p < |kind| == |pages| && kind[p].Held? && !pages[p].Node?
    requires t < |kind| && kind[t].Tab? && kind[t].level > 0 && i < ENTRIES && pages[t].Node?
             && !Entry(pages, t, i).valid
    ensures var pages', kind' := WithTable(pages, t, i, p),
                                 kind[p := Tab(kind[t].root, kind[t].level - 1, kind[t].prefix * ENTRIES + i, t)];
            Named(pages', kind')
  {
    var k := Tab(kind[t].root, kind[t].level - 1, kind[t].prefix * ENTRIES + i, t);
    var pages', kind' := WithTable(pages, t, i, p), kind[p := k];
    forall s, j
      ensures Entry(pages', s, j) == if s == t && j == i then Pte(true, p, NOPERM) else Entry(pages, s, j)
    {
      WithTableEntry(pages, t, i, p, s, j);
    }
    Quotient(kind[t].prefix, i);
    forall q | 0 <= q < |kind'|
      ensures NamedOk(pages', kind', q, kind'[q])
    {
      assert NamedOk(pages, kind, q, kind[q]);
    }
  }

  lemma AddTableMap(pages: seq<Page>, kind: seq<Kind>, t: nat, i: nat, p: nat)
    requires Good(pages, kind) && p < |kind| && kind[p].Held?
    requires t < |kind| && kind[t].Tab? && kind[t].level > 0 && i < ENTRIES && !Entry(pages, t, i).valid
    requires pages[t].Node? && t != p
    ensures var pages' := WithTable(pages, t, i, p); SameMap(kind, pages, pages')
  {
    assert PageOk(pages[p], kind[p], p);
    var pages' := WithTable(pages, t, i, p);
    forall r, v | Root(kind, r) && 0 <= v < NVPN
      ensures Translate(pages', r, v) == Translate(pages, r, v)
    {
      Path(pages, kind, r, v);
      WithTableEntry(pages, t, i, p, r, Index2(v));
      WithTableEntry(pages, t, i, p, Top(pages', r, v).pa, Index1(v));
      WithTableEntry(pages, t, i, p, Mid(pages', r, v).pa, Index0(v));
    }
  }

  lemma Quotient(a: nat, i: nat)
    requires i < ENTRIES
    ensures (a * ENTRIES + i) / ENTRIES == a && (a * ENTRIES + i) % ENTRIES == i
  {
  }

  /** Writing entry i of a level-0 table changes the translation of one virtual page. */
  lemma LeafWrite(pages: seq<Page>, kind: seq<Kind>, t: nat, i: nat, e: Pte)
    requires Good(pages, kind) && t < |kind| && kind[t].Tab? && kind[t].level == 0 && i < ENTRIES && pages[t].Node?
    ensures var v := kind[t].prefix * ENTRIES + i;
            && v < NVPN && Root(kind, kind[t].root)
            && SameMapBut(kind, pages, SetPte(pages, t, i, e), kind[t].root, v, v + 1)
            && Translate(SetPte(pages, t, i, e), kind[t].root, v) == e
            && Translate(pages, kind[t].root, v) == Entry(pages, t, i)
  {
    var v, root := kind[t].prefix * ENTRIES + i, kind[t].root;
    assert PageOk(pages[t], kind[t], t);
    hide Good;
    Quotient(kind[t].prefix, i);
    PathTo(pages, kind, t, root, v);
    forall r, w | Root(kind, r) && 0 <= w < NVPN
      ensures Translate(SetPte(pages, t, i, e), r, w) == if r == root && w == v then e else Translate(pages, r, w)
    {
      LeafWriteAt(pages, kind, t, i, e, r, w);
    }
  }

  lemma LeafWriteAt(pages: seq<Page>, kind: seq<Kind>, t: nat, i: nat, e: Pte, r: nat, w: nat)
    requires Good(pages, kind) && t < |kind| == |pages| && kind[t].Tab? && kind[t].level == 0 && i < ENTRIES
             && pages[t].Node?
    requires Root(kind, r) && w < NVPN
    requires kind[t].prefix * ENTRIES + i < NVPN
    ensures Translate(SetPte(pages, t, i, e), r, w)
            == if r == kind[t].root && w == kind[t].prefix * ENTRIES + i then e else Translate(pages, r, w)
  {
    var pages' := SetPte(pages, t, i, e);
    Path(pages, kind, r, w);
    Indices(w);
    Quotient(kind[t].prefix, i);
    if w / 0x200 == kind[t].prefix && r == kind[t].root {
      PathTo(pages, kind, t, r, w);
    }
    hide Good;
    EntrySet(pages, t, i, e, r, Index2(w));
    EntrySet(pages, t, i, e, Top(pages, r, w).pa, Index1(w));
    EntrySet(pages, t, i, e, Mid(pages, r, w).pa, Index0(w));
  }

  /** mappages writing one entry; a user page passes from the caller to the address space. */
  lemma MapLeaf(pages: seq<Page>, kind: seq<Kind>, t: nat, i: nat, p: nat, perm: Perm)
    requires Good(pages, kind) && t < |kind| && kind[t].Tab? && kind[t].level == 0 && i < ENTRIES && Leafy(perm)
    requires !Entry(pages, t, i).valid
    requires if kind[t].prefix * ENTRIES + i < USERTOP then p < |kind| && kind[p].Held? else !perm.u
    ensures pages[t].Node?
    ensures Good(SetPte(pages, t, i, Pte(true, p, perm)), Mapped(kind, t, i, p))
  {
    assert PageOk(pages[t], kind[t], t);
    var pages', kind' := SetPte(pages, t, i, Pte(true, p, perm)), Mapped(kind, t, i, p);
    MapEntries(pages, kind, t, i, p, perm);
    MapNamed(pages, kind, t, i, p, perm);
    forall q | 0 <= q < |kind'|
      ensures PageOk(pages'[q], kind'[q], q)
    {
      assert PageOk(pages[q], kind[q], q);
    }
  }

  lemma MapEntries(pages: seq<Page>, kind: seq<Kind>, t: nat, i: nat, p: nat, perm: Perm)
    requires Entries(pages, kind) && t < |kind| == |pages| && pages[t].Node? && kind[t].Tab? && kind[t].level == 0
    requires i < ENTRIES && Leafy(perm)
    requires if kind[t].prefix * ENTRIES + i < USERTOP then p < |kind| && kind[p].Held? else !perm.u
    ensures Entries(SetPte(pages, t, i, Pte(true, p, perm)), Mapped(kind, t, i, p))
  {
    var e, pages', kind' := Pte(true, p, perm), SetPte(pages, t, i, Pte(true, p, perm)), Mapped(kind, t, i, p);
    forall s, j | 0 <= s < |kind'| && kind'[s].Tab? && 0 <= j < ENTRIES
      ensures EntryOk(kind', s, kind'[s], j, Entry(pages', s, j))
    {
      EntrySet(pages, t, i, e, s, j);
      assert EntryOk(kind, s, kind[s], j, Entry(pages, s, j));
    }
  }

  lemma MapNamed(pages: seq<Page>, kind: seq<Kind>, t: nat, i: nat, p: nat, perm: Perm)
    requires Named(pages, kind) && t < |kind| == |pages| && pages[t].Node? && kind[t].Tab? && kind[t].level == 0
    requires i < ENTRIES && !Entry(pages, t, i).valid
    requires kind[t].prefix * ENTRIES + i < USERTOP ==> p < |kind| && kind[p].Held?
    ensures Named(SetPte(pages, t, i, Pte(true, p, perm)), Mapped(kind, t, i, p))
  {
    var e, pages', kind' := Pte(true, p, perm), SetPte(pages, t, i, Pte(true, p, perm)), Mapped(kind, t, i, p);
    forall s, j
      ensures Entry(pages', s, j) == if s == t && j == i then e else Entry(pages, s, j)
    {
      EntrySet(pages, t, i, e, s, j);
    }
    Quotient(kind[t].prefix, i);
    forall q | 0 <= q < |kind'|
      ensures NamedOk(pages', kind', q, kind'[q])
    {
      assert NamedOk(pages, kind, q, kind[q]);
    }
  }

  /** The registration after slot i of level-0 table t is made to name page p. */
  function Mapped(kind: seq<Kind>, t: nat, i: nat, p: nat): seq<Kind>
    requires t < |kind| && kind[t].Tab? && (kind[t].prefix * ENTRIES + i < USERTOP ==> p < |kind|)
  {
    var v := kind[t].prefix * ENTRIES + i;
    if v < USERTOP then kind[p := Leaf(kind[t].root, v, t)] else kind
  }

  /** The registration after slot i of level-0 table t, naming p, is cleared. */
  function Unmapped(kind: seq<Kind>, t: nat, i: nat, p: nat): seq<Kind>
    requires t < |kind| && kind[t].Tab? && (kind[t].prefix * ENTRIES + i < USERTOP ==> p < |kind|)
  { if kind[t].prefix * ENTRIES + i < USERTOP then kind[p := Held] else kind }

  lemma UnmapLeaf(pages: seq<Page>, kind: seq<Kind>, t: nat, i: nat)
    requires Good(pages, kind) && t < |kind| && kind[t].Tab? && kind[t].level == 0 && i < ENTRIES
             && Entry(pages, t, i).valid
    ensures pages[t].Node?
    ensures kind[t].prefix * ENTRIES + i < USERTOP ==>
              Entry(pages, t, i).pa < |kind|
                && kind[Entry(pages, t, i).pa] == Leaf(kind[t].root, kind[t].prefix * ENTRIES + i, t)
    ensures Good(SetPte(pages, t, i, NOPTE), Unmapped(kind, t, i, Entry(pages, t, i).pa))
  {
    var p := Entry(pages, t, i).pa;
    assert PageOk(pages[t], kind[t], t) && EntryOk(kind, t, kind[t], i, Entry(pages, t, i));
    var pages', kind' := SetPte(pages, t, i, NOPTE), Unmapped(kind, t, i, p);
    UnmapEntries(pages, kind, t, i);
    UnmapNamed(pages, kind, t, i);
    forall q | 0 <= q < |kind'|
      ensures PageOk(pages'[q], kind'[q], q)
    {
      assert PageOk(pages[q], kind[q], q);
    }
  }

  lemma UnmapEntries(pages: seq<Page>, kind: seq<Kind>, t: nat, i: nat)
    requires Entries(pages, kind) && t < |kind| == |pages| && pages[t].Node? && kind[t].Tab? && kind[t].level == 0
    requires i < ENTRIES && Entry(pages, t, i).valid
    requires kind[t].prefix * ENTRIES + i < USERTOP ==>
               Entry(pages, t, i).pa < |kind|
                 && kind[Entry(pages, t, i).pa] == Leaf(kind[t].root, kind[t].prefix * ENTRIES + i, t)
    ensures Entries(SetPte(pages, t, i, NOPTE), Unmapped(kind, t, i, Entry(pages, t, i).pa))
  {
    var pages', kind' := SetPte(pages, t, i, NOPTE), Unmapped(kind, t, i, Entry(pages, t, i).pa);
    forall s, j | 0 <= s < |kind'| && kind'[s].Tab? && 0 <= j < ENTRIES
      ensures EntryOk(kind', s, kind'[s], j, Entry(pages', s, j))
    {
      EntrySet(pages, t, i, NOPTE, s, j);
      assert EntryOk(kind, s, kind[s], j, Entry(pages, s, j));
      Quotient(kind[s].prefix, j);
      Quotient(kind[t].prefix, i);
    }
  }

  lemma UnmapNamed(pages: seq<Page>, kind: seq<Kind>, t: nat, i: nat)
    requires Named(pages, kind) && t < |kind| == |pages| && pages[t].Node? && kind[t].Tab? && kind[t].level == 0
    requires i < ENTRIES && Typed(pages, kind)
    requires kind[t].prefix * ENTRIES + i < USERTOP ==>
               Entry(pages, t, i).pa < |kind|
                 && kind[Entry(pages, t, i).pa] == Leaf(kind[t].root, kind[t].prefix * ENTRIES + i, t)
    ensures Named(SetPte(pages, t, i, NOPTE), Unmapped(kind, t, i, Entry(pages, t, i).pa))
  {
    var pages', kind' := SetPte(pages, t, i, NOPTE), Unmapped(kind, t, i, Entry(pages, t, i).pa);
    forall s, j
      ensures Entry(pages', s, j) == if s == t && j == i then NOPTE else Entry(pages, s, j)
    {
      EntrySet(pages, t, i, NOPTE, s, j);
    }
    forall q | 0 <= q < |kind'|
      ensures NamedOk(pages', kind', q, kind'[q])
    {
      assert NamedOk(pages, kind, q, kind[q]) && PageOk(pages[q], kind[q], q);
      assert kind[q].Leaf? ==> kind[q].vpn / ENTRIES * ENTRIES + kind[q].vpn % ENTRIES == kind[q].vpn;
    }
  }

  // ---------- the free list ----------

  lemma FreeKept(pages: seq<Page>, kind: seq<Kind>, head: nat, free: seq<nat>, pages': seq<Page>, kind': seq<Kind>)
    requires FreeOk(pages, kind, head, free) && |pages'| == |kind'| == |kind|
    requires forall p :: 0 <= p < |kind| ==> kind'[p].Free? == kind[p].Free?
    requires forall p :: 0 <= p < |kind| && kind[p].Free? ==> pages'[p] == pages[p]
    ensures FreeOk(pages', kind', head, free)
  {
  }

  /** After a page that is on the free list is pushed again, any list of the free pages would run from it down the
      old list. */
  lemma {:induction false} SameLinks(pages: seq<Page>, kind: seq<Kind>, free: seq<nat>, p: nat, l: seq<nat>, k: nat)
    requires k < |free| && forall j :: |free| - k <= j < |free| ==> free[j] != p
    requires FreeOk(pages, kind, free[|free| - 1], free) && p < |kind| && kind[p].Free?
    requires FreeOk(pages[p := Run(free[|free| - 1])], kind, p, l)
    ensures k + 2 <= |l| && l[|l| - 2 - k] == free[|free| - 1 - k]
  {
    var pages' := pages[p := Run(free[|free| - 1])];
    if k == 0 {
      assert l[|l| - 1] == p && pages'[p] == Run(free[|free| - 1]);
    } else {
      SameLinks(pages, kind, free, p, l, k - 1);
      var i, j := |l| - 1 - k, |free| - k;
      assert l[i] == free[j] != p;
      assert pages'[l[i]] == Run(free[j - 1]);
      assert i > 0;
      assert pages'[l[i]] == Run(l[i - 1]);
    }
  }

  /** Freeing a page twice leaves no list of the free pages: the chain has become a circle. */
  lemma FreedTwice(pages: seq<Page>, kind: seq<Kind>, head: nat, free: seq<nat>, p: nat, pages': seq<Page>,
                   kind': seq<Kind>)
    requires FreeOk(pages, kind, head, free) && p < |kind| && kind[p].Free?
    requires pages' == pages[p := Run(head)] && kind' == kind[p := Free]
    ensures forall l :: !FreeOk(pages', kind', p, l)
  {
    assert kind' == kind;
    var j :| 0 <= j < |free| && free[j] == p;
    forall l | FreeOk(pages', kind', p, l)
      ensures false
    {
      SameLinks(pages, kind, free, p, l, |free| - 1 - j);
    }
  }

  lemma FreeEmpty(pages: seq<Page>, kind: seq<Kind>, head: nat, free: seq<nat>)
    requires FreeOk(pages, kind, head, free)
    ensures |pages| == |kind| && (head == 0 <==> free == [])
  {
  }

  lemma FreePushed(pages: seq<Page>, kind: seq<Kind>, head: nat, free: seq<nat>, p: nat)
    requires FreeOk(pages, kind, head, free) && 0 < p < |kind| && !kind[p].Free?
    ensures FreeOk(pages[p := Run(head)], kind[p := Free], p, free + [p])
  {
    assert p !in free;
  }

  lemma FreePopped(pages: seq<Page>, kind: seq<Kind>, head: nat, free: seq<nat>, page: Page, k: Kind)
    requires FreeOk(pages, kind, head, free) && |free| > 0 && !k.Free?
    ensures 0 < head < |kind| && kind[head].Free? && pages[head].Run? && head == free[|free| - 1]
    ensures FreeOk(pages[head := page], kind[head := k], pages[head].next, free[..|free| - 1])
  {
    var n := |free| - 1;
    var rest, kind' := free[..n], kind[head := k];
    assert head == free[n];
    assert n > 0 ==> pages[free[n]] == Run(free[n - 1]);
    forall p | 0 <= p < |kind'| && kind'[p].Free?
      ensures p in rest
    {
      assert p in free;
    }
  }

  // ---------- a new address space ----------

  lemma AddRoot(pages: seq<Page>, kind: seq<Kind>, p: nat)
    requires Good(pages, kind) && p < |kind| && kind[p].Held?
    ensures var pages', kind' := pages[p := Node(Empty())], kind[p := Tab(p, 2, 0, 0)];
            Good(pages', kind') && SameMap(kind, pages, pages') && Root(kind', p)
            && forall v :: 0 <= v < NVPN ==> Translate(pages', p, v) == NOPTE
  {
    assert PageOk(pages[p], kind[p], p);
    var pages', kind' := pages[p := Node(Empty())], kind[p := Tab(p, 2, 0, 0)];
    assert forall s, j {:trigger Entry(pages', s, j)} :: 0 <= s && 0 <= j ==> Entry(pages', s, j) == Entry(pages, s, j);
    forall r, v | Root(kind, r) && 0 <= v < NVPN
      ensures Translate(pages', r, v) == Translate(pages, r, v)
    {
      SameEntries(pages, pages', r, v);
    }
    forall s, j | 0 <= s < |kind'| && kind'[s].Tab? && 0 <= j < ENTRIES
      ensures EntryOk(kind', s, kind'[s], j, Entry(pages', s, j))
    {
      assert s != p ==> EntryOk(kind, s, kind[s], j, Entry(pages, s, j));
    }
    forall q | 0 <= q < |kind'|
      ensures NamedOk(pages', kind', q, kind'[q])
    {
      assert NamedOk(pages, kind, q, kind[q]);
    }
    forall q | 0 <= q < |kind'|
      ensures PageOk(pages'[q], kind'[q], q)
    {
      assert PageOk(pages[q], kind[q], q);
    }
  }
}
