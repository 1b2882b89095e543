/** arch/x86_64/paging.cpp: four levels of 512-entry tables, living in pages of their
    own, that stand for a finite map from virtual page numbers to frames.

    Pages go by number (address divided by 4096).  Virtual page numbers have 36 bits:
    Intel SDM volume 3A, section 4.5. */
module Paging {
  import opened Common

  const PAGE_BYTES: nat := 4096
  /** The bits of an entry that hold an address. */
  const ADDRESS_MASK: bv64 := 0x000f_ffff_ffff_f000

  /** Virtual page numbers. */
  const PAGES: nat := 0x10_0000_0000

  datatype Flags = Flags(write: bool, user: bool, execute: bool)

  /** A page of physical memory, by address. */
  datatype Page = Page(address: bv64)

  /** Address 0 stands for no page. */
  const NONE: Page := Page(0)

  /** An entry is a 64-bit word. */
  datatype Entry = Entry(word: bv64) {
    const present: bool := word & 1 != 0
    const writable: bool := word & 2 != 0
    const user: bool := word & 4 != 0
    const huge: bool := word & 0x80 != 0
    const noExecute: bool := word & 0x8000_0000_0000_0000 != 0
    const frame: Page := Page(word & ADDRESS_MASK)
  }

  const EMPTY: Entry := Entry(0)

  type Tables = map<Page, seq<Entry>>

  /** `v` without its lowest `k` nine-bit digits. */
  function Up(v: nat, k: nat): nat { if k == 0 then v else Up(v, k - 1) / 512 }

  /** `index_of`. */
  function IndexOf(v: nat, l: nat): (i: nat)
    ensures i < 512
  {
    Up(v, l) % 512
  }

  /** The digits of a page number above level `l`. */
  function Prefix(v: nat, l: nat): nat { Up(v, l + 1) }

  /** Prefix `x` with digit `i` appended. */
  function Down(x: nat, i: nat): (y: nat)
    requires i < 512
    ensures y / 512 == x && y % 512 == i
  {
    x * 512 + i
  }

  lemma DownIs(y: nat)
    ensures Down(y / 512, y % 512) == y
  {
  }

  /** One level down: the prefix gains the index. */
  lemma PrefixDown(v: nat, l: nat)
    requires l > 0
    ensures Prefix(v, l - 1) == Down(Prefix(v, l), IndexOf(v, l))
    ensures Prefix(v, l - 1) / 512 == Prefix(v, l) && Prefix(v, l - 1) % 512 == IndexOf(v, l)
  {
  }

  // ------------------------------------------------------------------ the tree

  ghost predicate TableOk(t: Tables, p: Page) { p in t && |t[p]| == 512 }

  /** No entry of table `p` is a huge page. */
  ghost predicate Plain(t: Tables, p: Page) { p in t && |t[p]| == 512 && forall i :: 0 <= i < 512 ==> !t[p][i].huge }

  /** The table reached at level `l` for prefix `x`, walking from the root. */
  ghost function TableAt(t: Tables, root: Page, l: nat, x: nat): Option<Page>
    requires l <= 3
    decreases 3 - l
  {
    if l == 3 then (if x == 0 then Some(root) else None)
    else Child(t, TableAt(t, root, l + 1, x / 512), x % 512)
  }

  /** The table slot `i` of a table leads to. */
  ghost function Child(t: Tables, q: Option<Page>, i: nat): Option<Page>
    requires i < 512
  {
    if q.Some? && TableOk(t, q.value) && t[q.value][i].present && !t[q.value][i].huge then Some(t[q.value][i].frame)
       else None
  }

  /** What the tree says of page `v`. */
  ghost function Mapped(t: Tables, root: Page, v: nat): Option<Entry> {
    match TableAt(t, root, 0, v / 512)
    case None => None
    case Some(p) => if TableOk(t, p) && t[p][v % 512].present then Some(t[p][v % 512]) else None
  }

  datatype Place = Place(level: nat, prefix: nat)

  /** The tables are exactly the pages of `place`, each reached from the root in one way
      only; no entry above the last level is a huge page. */
  ghost predicate Shape(t: Tables, root: Page, place: map<Page, Place>) {
    && root in place && place[root] == Place(3, 0)
    && (forall p :: p in place ==>
        TableOk(t, p) && place[p].level <= 3 && TableAt(t, root, place[p].level, place[p].prefix) == Some(p))
    && (forall l, x :: 0 <= l <= 3 && TableAt(t, root, l, x).Some? ==>
          TableAt(t, root, l, x).value in place && place[TableAt(t, root, l, x).value] == Place(l, x))
    && (forall p :: p in place && place[p].level > 0 ==> Plain(t, p))
  }

  /** Every reached table was reached through reached tables. */
  lemma Ancestor(t: Tables, root: Page, l: nat, x: nat)
    requires l < 3 && TableAt(t, root, l, x).Some?
    ensures TableAt(t, root, l + 1, x / 512).Some?
  {
  }

  /** Writing the last level moves no table. */
  lemma {:induction false} LeafWrite(t: Tables, root: Page, place: map<Page, Place>, p: Page, i: nat, e: Entry, l: nat,
                                     x: nat)
    requires Shape(t, root, place) && p in place && p in t && |t[p]| == 512 && place[p].level == 0 && i < 512 && l <= 3
    ensures TableAt(t[p := t[p][i := e]], root, l, x) == TableAt(t, root, l, x)
    decreases 3 - l
  {
    hide *;
    PlaceOf(t, root, place, p);
    var t' := t[p := t[p][i := e]];
    if l == 3 {
      TableTop(t, root, x);
      TableTop(t', root, x);
    } else {
      LeafWrite(t, root, place, p, i, e, l + 1, x / 512);
      var up := TableAt(t, root, l + 1, x / 512);
      if up.Some? { ReachedAt(t, root, place, l + 1, x / 512); }
      TableStep(t, root, l, x);
      TableStep(t', root, l, x);
      ChildLeaf(t, p, i, e, up, x % 512);
    }
  }

  lemma ChildLeaf(t: Tables, p: Page, i: nat, e: Entry, up: Option<Page>, j: nat)
    requires p in t && i < |t[p]| && j < 512 && up != Some(p)
    ensures Child(t[p := t[p][i := e]], up, j) == Child(t, up, j)
  {
  }

  function Blank(): (r: seq<Entry>)
    ensures |r| == 512 && forall i :: 0 <= i < 512 ==> r[i] == EMPTY
  {
    seq(512, _ => EMPTY)
  }

  /** The tables with a new, empty one hung into slot `i` of `q`. */
  function Hung(t: Tables, q: Page, i: nat, n: Page, e: Entry): (t': Tables)
    requires q in t && i < |t[q]| && n != q
    ensures t'.Keys == t.Keys + {n} && t'[n] == Blank() && t'[q] == t[q][i := e]
            && forall p :: p in t && p != n && p != q ==> t'[p] == t[p]
  {
    t[n := Blank()][q := t[q][i := e]]
  }

  /** A new, empty table hung into a free slot: that table is reached, everything else is
      as it was. */
  lemma {:induction false} TableAdded(t: Tables, root: Page, place: map<Page, Place>, q: Page, i: nat, n: Page,
                                      e: Entry, l: nat, x: nat)
    requires Shape(t, root, place) && q in place && TableOk(t, q) && place[q].level > 0 && i < 512 && !t[q][i].present
    requires n !in place && e.present && !e.huge && e.frame == n && l <= 3
    ensures TableAt(Hung(t, q, i, n, e), root, l, x) ==
            if l == place[q].level - 1 && x == Down(place[q].prefix, i) then Some(n) else TableAt(t, root, l, x)
    decreases 3 - l
  {
    hide *;
    PlaceOf(t, root, place, q);
    var t' := Hung(t, q, i, n, e);
    if l == 3 {
      TableTop(t, root, x);
      TableTop(t', root, x);
    } else {
      TableAdded(t, root, place, q, i, n, e, l + 1, x / 512);
      var up := TableAt(t, root, l + 1, x / 512);
      if up.Some? { ReachedAt(t, root, place, l + 1, x / 512); }
      TableStep(t, root, l, x);
      TableStep(t', root, l, x);
      ChildHung(t, q, i, n, e, up, x % 512);
      DownIs(x);
      if l + 1 == place[q].level - 1 && x / 512 == Down(place[q].prefix, i) {
        NothingBelow(t, root, place, q, i, l + 1, x / 512);
        ChildBlank(t', n, x % 512);
      }
    }
  }

  lemma TableTop(t: Tables, root: Page, x: nat)
    ensures TableAt(t, root, 3, x) == if x == 0 then Some(root) else None
  {
  }

  lemma TableStep(t: Tables, root: Page, l: nat, x: nat)
    requires l < 3
    ensures TableAt(t, root, l, x) == Child(t, TableAt(t, root, l + 1, x / 512), x % 512)
  {
  }

  lemma ChildHung(t: Tables, q: Page, i: nat, n: Page, e: Entry, up: Option<Page>, j: nat)
    requires q in t && i < |t[q]| == 512 && n != q && j < 512 && e.present && !e.huge && e.frame == n && up != Some(n)
    ensures Child(Hung(t, q, i, n, e), up, j) == if up == Some(q) && j == i then Some(n) else Child(t, up, j)
    ensures Child(Hung(t, q, i, n, e), None, j).None? && Child(t, None, j).None?
  {
  }

  lemma ChildBlank(t: Tables, n: Page, j: nat)
    requires n in t && t[n] == Blank() && j < 512
    ensures Child(t, Some(n), j).None? && Child(t, None, j).None?
  {
  }

  lemma PlaceOf(t: Tables, root: Page, place: map<Page, Place>, p: Page)
    requires Shape(t, root, place) && p in place
    ensures TableOk(t, p) && place[p].level <= 3 && TableAt(t, root, place[p].level, place[p].prefix) == Some(p)
    ensures place[p].level == 3 ==> p == root && place[p].prefix == 0
    ensures root in place && place[root] == Place(3, 0) && p in t && |t[p]| == 512
  {
  }

  lemma RootPlace(t: Tables, root: Page, place: map<Page, Place>)
    requires Shape(t, root, place)
    ensures root in place && place[root] == Place(3, 0)
  {
  }

  lemma ReachedAt(t: Tables, root: Page, place: map<Page, Place>, l: nat, x: nat)
    requires Shape(t, root, place) && l <= 3 && TableAt(t, root, l, x).Some?
    ensures TableAt(t, root, l, x).value in place && place[TableAt(t, root, l, x).value] == Place(l, x)
            && TableOk(t, TableAt(t, root, l, x).value)
  {
  }

  /** Below an empty slot there is nothing. */
  lemma NothingBelow(t: Tables, root: Page, place: map<Page, Place>, q: Page, i: nat, l: nat, x: nat)
    requires Shape(t, root, place) && q in place && TableOk(t, q) && place[q].level > 0 && i < 512 && !t[q][i].present
    requires l + 1 == place[q].level && x == Down(place[q].prefix, i)
    ensures TableAt(t, root, l, x).None?
  {
    PlaceOf(t, root, place, q);
  }

  // ----------------------------------------------------------- what writes keep

  lemma ShapeMade(t: Tables, root: Page, place: map<Page, Place>)
    requires root in place && place[root] == Place(3, 0)
    requires forall p :: p in place ==>
             TableOk(t, p) && place[p].level <= 3 && TableAt(t, root, place[p].level, place[p].prefix) == Some(p)
    requires forall l, x :: 0 <= l <= 3 && TableAt(t, root, l, x).Some? ==>
             TableAt(t, root, l, x).value in place && place[TableAt(t, root, l, x).value] == Place(l, x)
    requires forall p :: p in place && place[p].level > 0 ==> Plain(t, p)
    ensures Shape(t, root, place)
  {
  }

  lemma NoHuge(t: Tables, root: Page, place: map<Page, Place>, p: Page)
    requires Shape(t, root, place) && p in place && place[p].level > 0
    ensures Plain(t, p)
  {
  }

  lemma PlainIs(t: Tables, p: Page)
    ensures Plain(t, p) <==> p in t && |t[p]| == 512 && forall i :: 0 <= i < 512 ==> !t[p][i].huge
  {
  }

  lemma OkKept(t: Tables, p: Page)
    ensures TableOk(t, p) <==> p in t && |t[p]| == 512
  {
  }

  /** A last-level entry written: the same tables, reached the same way. */
  lemma ShapeLeaf(t: Tables, root: Page, place: map<Page, Place>, p: Page, i: nat, e: Entry)
    requires Shape(t, root, place) && p in place && p in t && |t[p]| == 512 && place[p].level == 0 && i < 512
    ensures Shape(t[p := t[p][i := e]], root, place)
  {
    hide *;
    var t' := t[p := t[p][i := e]];
    PlaceOf(t, root, place, p);
    forall r | r in place
           ensures TableOk(t', r) && place[r].level <= 3
           && TableAt(t', root, place[r].level, place[r].prefix) == Some(r) {
      PlaceOf(t, root, place, r);
      LeafWrite(t, root, place, p, i, e, place[r].level, place[r].prefix);
      OkKept(t', r);
    }
    forall l, x | 0 <= l <= 3 && TableAt(t', root, l, x).Some?
      ensures TableAt(t', root, l, x).value in place && place[TableAt(t', root, l, x).value] == Place(l, x)
    {
      LeafWrite(t, root, place, p, i, e, l, x);
      ReachedAt(t, root, place, l, x);
    }
    forall r | r in place && place[r].level > 0 ensures Plain(t', r) {
      NoHuge(t, root, place, r);
      PlainIs(t, r);
      PlainIs(t', r);
    }
    ShapeMade(t', root, place);
  }

  /** Only the page whose entry was written maps differently. */
  lemma MappedLeaf(t: Tables, root: Page, place: map<Page, Place>, p: Page, i: nat, e: Entry, v: nat)
    requires Shape(t, root, place) && p in place && p in t && |t[p]| == 512 && place[p].level == 0 && i < 512
    ensures Mapped(t[p := t[p][i := e]], root, v) ==
            if v == Down(place[p].prefix, i) then (if e.present then Some(e) else None) else Mapped(t, root, v)
  {
    hide Shape, TableAt;
    PlaceOf(t, root, place, p);
    LeafWrite(t, root, place, p, i, e, 0, v / 512);
    DownIs(v);
    hide Down;
    if TableAt(t, root, 0, v / 512).Some? { ReachedAt(t, root, place, 0, v / 512); }
  }

  /** A table added: one more table, the rest reached as before. */
  lemma ShapeHung(t: Tables, root: Page, place: map<Page, Place>, q: Page, i: nat, n: Page, e: Entry)
    requires Shape(t, root, place) && q in place && q in t && |t[q]| == 512 && place[q].level > 0 && i < 512
             && !t[q][i].present
    requires n !in place && e.present && !e.huge && e.frame == n
    ensures Shape(Hung(t, q, i, n, e), root, place[n := Place(place[q].level - 1, Down(place[q].prefix, i))])
  {
    hide *;
    PlaceOf(t, root, place, q);
    OkKept(t, q);
    var t', spot := Hung(t, q, i, n, e), Place(place[q].level - 1, Down(place[q].prefix, i));
    var place' := place[n := spot];
    forall r | r in place'
           ensures TableOk(t', r) && place'[r].level <= 3
           && TableAt(t', root, place'[r].level, place'[r].prefix) == Some(r) {
      if r != n { PlaceOf(t, root, place, r); }
      TableAdded(t, root, place, q, i, n, e, place'[r].level, place'[r].prefix);
      if r != n && place'[r] == spot { NothingBelow(t, root, place, q, i, spot.level, spot.prefix); }
      OkKept(t', r);
    }
    forall l, x | 0 <= l <= 3 && TableAt(t', root, l, x).Some?
      ensures TableAt(t', root, l, x).value in place' && place'[TableAt(t', root, l, x).value] == Place(l, x)
    {
      TableAdded(t, root, place, q, i, n, e, l, x);
      if TableAt(t, root, l, x).Some? { ReachedAt(t, root, place, l, x); }
    }
    forall r | r in place' && place'[r].level > 0 ensures Plain(t', r) {
      Blanks();
      if r != n { PlaceOf(t, root, place, r); NoHuge(t, root, place, r); PlainIs(t, r); }
      PlainIs(t', r);
    }
    ShapeMade(t', root, place');
  }

  lemma Blanks()
    ensures |Blank()| == 512 && forall i :: 0 <= i < 512 ==> !Blank()[i].present && !Blank()[i].huge
  {
  }

  /** A table added maps nothing. */
  lemma MappedHung(t: Tables, root: Page, place: map<Page, Place>, q: Page, i: nat, n: Page, e: Entry, v: nat)
    requires Shape(t, root, place) && q in place && q in t && |t[q]| == 512 && place[q].level > 0 && i < 512
             && !t[q][i].present
    requires n !in place && e.present && !e.huge && e.frame == n
    ensures Mapped(Hung(t, q, i, n, e), root, v) == Mapped(t, root, v)
  {
    hide Shape, TableAt, Hung, Blank;
    PlaceOf(t, root, place, q);
    TableAdded(t, root, place, q, i, n, e, 0, v / 512);
    Blanks();
    if TableAt(t, root, 0, v / 512).Some? { ReachedAt(t, root, place, 0, v / 512); }
    if 0 == place[q].level - 1
       && v / 512 == Down(place[q].prefix, i) { NothingBelow(t, root, place, q, i, 0, v / 512); }
  }

  // ------------------------------------------------------------ reaching a page

  /** `index_of` sees the low 36 bits of a page number only. */
  lemma IndexWraps(w: nat, l: nat)
    requires l <= 3
    ensures IndexOf(w % PAGES, l) == IndexOf(w, l)
  {
    Digits(w, 512, 0x800_0000);
    Digits(w / 512, 512, 0x4_0000);
    Digits(w / 512 / 512, 512, 512);
    Digits(w / 512 / 512 / 512, 512, 1);
    UpIs(w);
    UpIs(w % PAGES);
  }

  lemma UpIs(v: nat)
    ensures Up(v, 0) == v && Up(v, 1) == v / 512 && Up(v, 2) == v / 512 / 512 && Up(v, 3) == v / 512 / 512 / 512
    ensures Up(v, 4) == v / 512 / 512 / 512 / 512
  {
  }

  /** The page number of an address. */
  function PageOf(virtual: nat): (v: nat)
    ensures v < PAGES
  {
    virtual / PAGE_BYTES % PAGES
  }

  /** `index_of`, on an address. */
  function IndexIn(virtual: nat, l: nat): (i: nat)
    requires l <= 3
    ensures i == IndexOf(PageOf(virtual), l) < 512
  {
    IndexWraps(virtual / PAGE_BYTES, l);
    IndexOf(virtual / PAGE_BYTES, l)
  }

  predicate PageAligned(a: nat) { a % PAGE_BYTES == 0 }

  /** Every page number starts at the root. */
  lemma PrefixTop(v: nat)
    requires v < PAGES
    ensures Prefix(v, 3) == 0
  {
    UpIs(v);
  }

  /** A reached table lies below reached tables, all the way up. */
  lemma {:induction false} Climb(t: Tables, root: Page, l: nat, y: nat, m: nat)
    requires l <= m <= 3 && TableAt(t, root, l, y).Some?
    ensures TableAt(t, root, m, Up(y, m - l)).Some?
    decreases m - l
  {
    hide TableAt;
    if m > l {
      Climb(t, root, l, y, m - 1);
      Ancestor(t, root, m - 1, Up(y, m - 1 - l));
    }
  }

  /** The tables missing on the way from level `l` down to page `v`. */
  ghost function Gap(t: Tables, root: Page, v: nat, l: nat): (n: nat)
    requires l <= 3
    ensures n <= l
  {
    if l == 0 then 0
    else if TableAt(t, root, l - 1, Prefix(v, l - 1)).None? then l
    else Gap(t, root, v, l - 1)
  }

  /** Nothing is below a missing table, so a new one brings the gap down by one. */
  lemma GapHung(t: Tables, root: Page, place: map<Page, Place>, q: Page, n: Page, e: Entry, v: nat, l: nat)
    requires 0 < l <= 3 && q in place && q in t && |t[q]| == 512 && place[q] == Place(l, Prefix(v, l))
             && !t[q][IndexOf(v, l)].present
    requires n !in place && e.present && !e.huge && e.frame == n && Shape(t, root, place)
    ensures Gap(t, root, v, l) == l
    ensures Gap(Hung(t, q, IndexOf(v, l), n, e), root, v, l - 1) == l - 1
  {
    hide *;
    OkKept(t, q);
    PrefixDown(v, l);
    NothingBelow(t, root, place, q, IndexOf(v, l), l - 1, Prefix(v, l - 1));
    GapMissing(t, root, v, l);
    if l > 1 {
      PrefixDown(v, l - 1);
      TableStep(t, root, l - 2, Prefix(v, l - 2));
      ChildNone(t, Prefix(v, l - 2) % 512);
      TableAdded(t, root, place, q, IndexOf(v, l), n, e, l - 2, Prefix(v, l - 2));
      GapMissing(Hung(t, q, IndexOf(v, l), n, e), root, v, l - 1);
    } else {
      GapNone(Hung(t, q, IndexOf(v, l), n, e), root, v);
    }
  }

  lemma ChildNone(t: Tables, i: nat)
    requires i < 512
    ensures Child(t, None, i).None?
  {
  }

  lemma GapMissing(t: Tables, root: Page, v: nat, l: nat)
    requires 0 < l <= 3 && TableAt(t, root, l - 1, Prefix(v, l - 1)).None?
    ensures Gap(t, root, v, l) == l
  {
  }

  lemma GapNone(t: Tables, root: Page, v: nat)
    ensures Gap(t, root, v, 0) == 0
  {
  }

  lemma GapStep(t: Tables, root: Page, v: nat, l: nat)
    requires 0 < l <= 3 && TableAt(t, root, l - 1, Prefix(v, l - 1)).Some?
    ensures Gap(t, root, v, l) == Gap(t, root, v, l - 1)
  {
  }

  /** A present entry of a table above the last level leads to the table of its place. */
  lemma ChildPlace(t: Tables, root: Page, place: map<Page, Place>, q: Page, i: nat)
    requires i < 512 && q in place && q in t && |t[q]| == 512 && place[q].level > 0 && t[q][i].present
             && Shape(t, root, place)
    ensures !t[q][i].huge
    ensures t[q][i].frame in place && place[t[q][i].frame] == Place(place[q].level - 1, Down(place[q].prefix, i))
    ensures place[q].level <= 3 && TableAt(t, root, place[q].level - 1, Down(place[q].prefix, i)).Some?
  {
    PlaceOf(t, root, place, q);
    NoHuge(t, root, place, q);
    hide Shape, Down;
    TableStep(t, root, place[q].level - 1, Down(place[q].prefix, i));
    ReachedAt(t, root, place, place[q].level - 1, Down(place[q].prefix, i));
  }

  // ------------------------------------------------------------------- subtrees

  /** A place at or below level `l`, prefix `x`. */
  ghost predicate Under(s: Place, l: nat, x: nat) { s.level <= l && Up(s.prefix, l - s.level) == x }

  /** A place below one of the first `i` entries of the table at level `l`, prefix `x`. */
  ghost predicate Below(s: Place, l: nat, x: nat, i: nat) {
    s.level < l && Up(s.prefix, l - 1 - s.level) / 512 == x && Up(s.prefix, l - 1 - s.level) % 512 < i
  }

  ghost function Sub(place: map<Page, Place>, l: nat, x: nat): set<Page> { set q | q in place && Under(place[q], l, x) }

  ghost function Done(place: map<Page, Place>, l: nat, x: nat, i: nat): set<Page>
  {
    set q | q in place && Below(place[q], l, x, i)
  }

  lemma DoneNone(place: map<Page, Place>, l: nat, x: nat)
    ensures Done(place, l, x, 0) == {}
  {
  }

  lemma BelowStep(s: Place, l: nat, x: nat, i: nat)
    requires l > 0 && i < 512
    ensures Below(s, l, x, i + 1) <==> Below(s, l, x, i) || Under(s, l - 1, Down(x, i))
    ensures !(Below(s, l, x, i) && Under(s, l - 1, Down(x, i)))
  {
    if s.level < l { DownIs(Up(s.prefix, l - 1 - s.level)); }
  }

  lemma DoneStep(place: map<Page, Place>, l: nat, x: nat, i: nat)
    requires l > 0 && i < 512
    ensures Done(place, l, x, i + 1) == Done(place, l, x, i) + Sub(place, l - 1, Down(x, i))
    ensures Done(place, l, x, i) !! Sub(place, l - 1, Down(x, i))
  {
    forall q | q in place
      ensures Below(place[q], l, x, i + 1) <==> Below(place[q], l, x, i) || Under(place[q], l - 1, Down(x, i))
      ensures !(Below(place[q], l, x, i) && Under(place[q], l - 1, Down(x, i)))
    {
      BelowStep(place[q], l, x, i);
    }
    hide Below, Under, Down;
  }

  /** The subtree of a table is the table and what its entries lead to. */
  lemma DoneAll(t: Tables, root: Page, place: map<Page, Place>, p: Page, l: nat, x: nat)
    requires p in place && place[p] == Place(l, x) && Shape(t, root, place)
    ensures Done(place, l, x, 512) !! {p}
    ensures Sub(place, l, x) == Done(place, l, x, 512) + {p}
  {
    hide *;
    forall q | q in place
           ensures (Under(place[q], l, x) <==> Below(place[q], l, x, 512) || q == p) && !Below(place[p], l, x, 512) {
      PlaceOf(t, root, place, p);
      PlaceOf(t, root, place, q);
      UnderIs(place[q], l, x);
      UnderIs(place[p], l, x);
    }
    DoneSplit(place, p, l, x);
  }

  lemma UnderIs(s: Place, l: nat, x: nat)
    ensures Under(s, l, x) <==> Below(s, l, x, 512) || s == Place(l, x)
    ensures s.level == l ==> !Below(s, l, x, 512)
  {
  }

  lemma DoneSplit(place: map<Page, Place>, p: Page, l: nat, x: nat)
    requires p in place && forall q :: q in place ==>
             (Under(place[q], l, x) <==> Below(place[q], l, x, 512) || q == p) && !Below(place[p], l, x, 512)
    ensures Done(place, l, x, 512) !! {p} && Sub(place, l, x) == Done(place, l, x, 512) + {p}
  {
    hide Under, Below;
  }

  lemma DoneSub(place: map<Page, Place>, l: nat, x: nat, i: nat)
    requires i <= 512
    ensures Done(place, l, x, i) <= Sub(place, l, x)
  {
  }

  /** An entry that leads nowhere has an empty subtree. */
  lemma EmptySub(t: Tables, root: Page, place: map<Page, Place>, p: Page, l: nat, x: nat, i: nat)
    requires 0 < l <= 3 && i < 512 && p in place && p in t && |t[p]| == 512 && place[p] == Place(l, x)
             && Shape(t, root, place)
    requires !t[p][i].present || t[p][i].huge
    ensures Sub(place, l - 1, Down(x, i)) == {}
  {
    hide *;
    ChildDead(t, root, place, p, i);
    forall q | q in place ensures !Under(place[q], l - 1, Down(x, i)) {
      NotUnder(t, root, place, q, l - 1, Down(x, i));
    }
    SubEmpty(place, l - 1, Down(x, i));
  }

  lemma ChildDead(t: Tables, root: Page, place: map<Page, Place>, p: Page, i: nat)
    requires i < 512 && p in place && p in t && |t[p]| == 512 && 0 < place[p].level <= 3 && Shape(t, root, place)
    requires !t[p][i].present || t[p][i].huge
    ensures TableAt(t, root, place[p].level - 1, Down(place[p].prefix, i)).None?
  {
    PlaceOf(t, root, place, p);
    hide Down, Shape;
    TableStep(t, root, place[p].level - 1, Down(place[p].prefix, i));
  }

  lemma NotUnder(t: Tables, root: Page, place: map<Page, Place>, q: Page, l: nat, y: nat)
    requires l <= 3 && q in place && TableAt(t, root, l, y).None? && Shape(t, root, place)
    ensures !Under(place[q], l, y)
  {
    hide Shape, TableAt, Up;
    PlaceOf(t, root, place, q);
    if place[q].level <= l { Climb(t, root, place[q].level, place[q].prefix, l); }
  }

  lemma SubEmpty(place: map<Page, Place>, l: nat, y: nat)
    requires forall q :: q in place ==> !Under(place[q], l, y)
    ensures Sub(place, l, y) == {}
  {
  }

  /** Every table is below the root. */
  lemma WholeSub(t: Tables, root: Page, place: map<Page, Place>)
    requires Shape(t, root, place)
    ensures Sub(place, 3, 0) == place.Keys
  {
    forall q | q in place ensures Under(place[q], 3, 0) {
      PlaceOf(t, root, place, q);
      Climb(t, root, place[q].level, place[q].prefix, 3);
      TableTop(t, root, Up(place[q].prefix, 3 - place[q].level));
    }
  }

  // ---------------------------------------------------------------- the object

  ghost function Find(pages: map<nat, Entry>, v: nat): Option<Entry> { if v in pages then Some(pages[v]) else None }

  lemma FindNone(v: nat)
    ensures Find(map[], v).None?
  {
  }

  /** Free pages and table pages are apart, and are pages entries can point to. */
  ghost predicate PagesOk(place: map<Page, Place>, pool: set<Page>) {
    && NONE !in pool && NONE !in place
    && place.Keys !! pool
    && (forall p :: p in pool ==> PageAddress(p))
    && (forall p :: p in place ==> PageAddress(p))
  }

  /** All the pages there are, free or tables. */
  ghost function Stock(place: map<Page, Place>, pool: set<Page>): set<Page> { pool + place.Keys }

  lemma PagesTake(place: map<Page, Place>, pool: set<Page>, page: Page, spot: Place)
    requires PagesOk(place, pool) && page in pool
    ensures PagesOk(place[page := spot], pool - {page}) && page !in place && PageAddress(page)
    ensures Stock(place[page := spot], pool - {page}) == Stock(place, pool)
    ensures place[page := spot].Keys == place.Keys + {page}
  {
  }

  lemma PagesGive(place: map<Page, Place>, pool: set<Page>)
    requires PagesOk(place, pool)
    ensures PagesOk(map[], pool + place.Keys) && Stock(map[], pool + place.Keys) == Stock(place, pool)
  {
  }

  lemma PagesParts(place: map<Page, Place>, pool: set<Page>)
    requires PagesOk(place, pool)
    ensures NONE !in pool && NONE !in place && place.Keys !! pool
  {
  }

  /** An address an entry can hold whole. */
  predicate PageAddress(p: Page) { p.address & ADDRESS_MASK == p.address }

  function Bit(on: bool, mask: bv64): bv64 { if on then mask else 0 }

  /** `translate_flags`, on an address. */
  function Leaf(physical: bv64, flags: Flags, nx: bool): (e: Entry)
    ensures e.present && !e.huge && e.frame == Page(physical & ADDRESS_MASK)
    ensures e.writable == flags.write && e.user == flags.user && e.noExecute == (!flags.execute && nx)
  {
    Entry((physical & ADDRESS_MASK) | 1 | Bit(flags.write, 2) | Bit(flags.user, 4) | Bit(!flags.execute
        && nx, 0x8000_0000_0000_0000))
  }

  /** The entry `descend` writes for a new table. */
  function Link(page: Page): (e: Entry)
    ensures e.present && !e.huge && (PageAddress(page) ==> e.frame == page)
  {
    Entry((page.address & ADDRESS_MASK) | 1 | 2 | 4)
  }

  /** The frame of a huge page of level `l`, less one. */
  function HugeMask(l: nat): bv64 {
    if l == 1 then 0x1f_ffff else if l == 2 then 0x3fff_ffff else 0x7f_ffff_ffff
  }

  /** An address inside a huge page of level `l`. */
  function HugeAddress(frame: Page, l: nat, virtual: nat): bv64
  {
    (frame.address & !HugeMask(l)) | (Word(virtual) & HugeMask(l))
  }

  /** The low 64 bits of an address. */
  function Word(a: nat): bv64 { (a % 0x1_0000_0000_0000_0000) as bv64 }

  function Offset(virtual: nat): bv64 { (virtual % PAGE_BYTES) as bv64 }

  /** The address a page's entry and an offset make; 0 without an entry. */
  ghost function Physical(found: Option<Entry>, offset: bv64): bv64 {
    match found
    case None => 0
    case Some(e) => e.frame.address | offset
  }

  ghost predicate Unmapped(found: Option<Entry>) { found.None? }

  /** Offset 0 of frame 0. */
  ghost predicate FrameStart(found: Option<Entry>, offset: bv64) {
    found.Some? && found.value.frame.address == 0 && offset == 0
  }

  lemma ZeroAnswer(found: Option<Entry>, offset: bv64)
    ensures Physical(found, offset) == 0 <==> Unmapped(found) || FrameStart(found, offset)
  {
    if found.Some? { OrZero(found.value.frame.address, offset); }
  }

  lemma OrZero(a: bv64, b: bv64)
    ensures a | b == 0 <==> a == 0 && b == 0
  {
  }

  class PageTable {
    /** The page of the root table; 0 before `initialize`. */
    var root: Page
    /** The contents of the table pages. */
    var tables: Tables
    /** The pages the page allocator has left. */
    var pool: set<Page>
    /** Whether the processor has the no-execute bit. */
    const nx: bool
    ghost var place: map<Page, Place>
    /** The map the tree stands for. */
    ghost var pages: map<nat, Entry>

    ghost predicate Agrees()
      reads `root, `tables, `pages
    {
      forall v: nat :: Mapped(tables, root, v) == Find(pages, v)
    }

    ghost predicate Tree()
      reads `root, `tables, `place
    {
      && root != NONE
      && tables.Keys == place.Keys
      && Shape(tables, root, place)
    }

    ghost predicate Valid()
      reads this
    {
      && PagesOk(place, pool)
      && if root == NONE then tables == map[] && place == map[] && pages == map[] else Tree() && Agrees()
    }

    /** The pages the tree has taken from the allocator. */
    ghost function Owned(): (r: set<Page>)
      reads `place
      ensures r == place.Keys
    {
      place.Keys
    }

    lemma ValidParts()
      requires root != NONE && Valid()
      ensures tables.Keys == place.Keys && Shape(tables, root, place) && PagesOk(place, pool)
      ensures forall v: nat :: Mapped(tables, root, v) == Find(pages, v)
    {
      hide Shape, Mapped, Find;
    }

    lemma ValidMade()
      requires root != NONE && tables.Keys == place.Keys && PagesOk(place, pool)
      requires forall v: nat :: Mapped(tables, root, v) == Find(pages, v)
      requires Shape(tables, root, place)
      ensures Valid()
    {
      hide Shape, Mapped, Find, PagesOk;
    }

    lemma NoneParts()
      requires root == NONE && Valid()
      ensures tables == map[] && place == map[] && pages == map[] && PagesOk(place, pool)
    {
      hide PagesOk;
    }

    lemma ValidNone()
      requires root == NONE && tables == map[] && place == map[] && pages == map[] && PagesOk(place, pool)
      ensures Valid()
    {
      hide PagesOk;
    }

    constructor (free: set<Page>, noExecute: bool)
      requires NONE !in free && forall p :: p in free ==> PageAddress(p)
      ensures Valid() && root == NONE && pool == free && nx == noExecute && Owned() == {}
    {
      root, tables, pool, nx := NONE, map[], free, noExecute;
      place, pages := map[], map[];
    }

    /** `clear_table`. */
    method ClearTable(page: Page)
      requires TableOk(tables, page)
      modifies `tables
      ensures tables == old(tables)[page := Blank()]
    {
      ghost var was := tables;
      for i := 0 to 512
        invariant tables.Keys == was.Keys && TableOk(tables, page)
        invariant forall j :: 0 <= j < i ==> tables[page][j] == EMPTY
        invariant tables == was[page := tables[page]]
      {
        tables := tables[page := tables[page][i := EMPTY]];
      }
      assert tables[page] == Blank();
    }

    /** `allocate_page`: 0 when none is left; the page comes with whatever it held. */
    method AllocatePage() returns (page: Page)
      requires NONE !in pool
      modifies `pool, `tables
      ensures page == NONE ==> old(pool) == {} && pool == old(pool) && tables == old(tables)
      ensures page != NONE ==> page in old(pool) && pool == old(pool) - {page} && |pool| == |old(pool)| - 1
      ensures page != NONE ==> TableOk(tables, page) && tables == old(tables)[page := tables[page]]
    {
      if pool == {} { return NONE; }
      page :| page in pool;
      var held: seq<Entry> := *;
      pool := pool - {page};
      tables := tables[page := seq(512, i => if 0 <= i < |held| then held[i] else EMPTY)];
    }

    /** `initialize`. */
    method Initialize() returns (ok: bool)
      requires Valid()
      modifies this
      ensures Valid() && pages == old(pages) && ok == (root != NONE)
      ensures ok == (old(root) != NONE || old(pool) != {})
      ensures old(root) != NONE || !ok ==>
              root == old(root) && tables == old(tables) && pool == old(pool) && place == old(place)
      ensures old(root) == NONE && ok ==> root in old(pool) && pool == old(pool) - {root} && Owned() == {root}
      ensures Stock(place, pool) == old(Stock(place, pool))
    {
      hide *;
      if root != NONE { return true; }
      NoneParts();
      PagesParts(place, pool);
      ghost var free := pool;
      var page := AllocatePage();
      if page == NONE { return false; }
      PagesTake(place, free, page, Place(3, 0));
      ClearTable(page);
      root := page;
      assert tables == map[page := Blank()] && place[page := Place(3, 0)] == map[page := Place(3, 0)];
      place := map[page := Place(3, 0)];
      RootAlone(tables, page);
      forall v: nat ensures Mapped(tables, root, v) == Find(pages, v) { FindNone(v); }
      ValidMade();
      return true;
    }

    /** A new table in an empty slot. */
    method Hang(table: Page, index: nat) returns (page: Page)
      requires index < 512 && root != NONE && table in place && place[table].level > 0
      requires table in tables && |tables[table]| == 512 && !tables[table][index].present && Valid()
      modifies `tables, `pool, `place
      ensures Valid()
      ensures page == NONE <==> old(pool) == {}
      ensures page == NONE ==> tables == old(tables) && pool == old(pool) && place == old(place)
      ensures page != NONE ==>
                && |pool| == |old(pool)| - 1 && page !in old(place) && page != table && PageAddress(page)
                && Stock(place, pool) == old(Stock(place, pool))
                && place == old(place)[page :=
                                       Place(old(place)[table].level - 1, Down(old(place)[table].prefix, index))]
                && tables == Hung(old(tables), table, index, page, Link(page))
    {
      hide *;
      ValidParts();
      PagesParts(place, pool);
      ghost var was: Tables, wasPlace: map<Page, Place>, free := tables, place, pool;
      ghost var spot := Place(place[table].level - 1, Down(place[table].prefix, index));
      page := NewTable(table, index);
      if page == NONE { return; }
      PagesTake(wasPlace, free, page, spot);
      HungTree(was, root, wasPlace, table, index, page, pages);
      place := wasPlace[page := spot];
      ValidMade();
    }

    /** The page of a new table, cleared and linked in. */
    method NewTable(table: Page, index: nat) returns (page: Page)
      requires table in tables && index < |tables[table]| && NONE !in pool && table !in pool
      modifies `tables, `pool
      ensures page == NONE <==> old(pool) == {}
      ensures page == NONE ==> tables == old(tables) && pool == old(pool)
      ensures page != NONE ==>
                && page in old(pool) && pool == old(pool) - {page} && |pool| == |old(pool)| - 1 && page != table
                && tables == Hung(old(tables), table, index, page, Link(page))
    {
      hide *;
      ghost var was: Tables := tables;
      page := AllocatePage();
      if page == NONE { return; }
      ClearTable(page);
      tables := tables[table := tables[table][index := Link(page)]];
      HungIs(was, table, index, page, Link(page), tables);
    }

    /** `descend`: the next table down, 0 when there is none and none is made. */
    method Descend(table: Page, index: nat, create: bool) returns (next: Page)
      requires index < 512 && root != NONE && table in place && place[table].level > 0 && Valid()
      modifies `tables, `pool, `place
      ensures Valid() && table in old(tables) && |old(tables)[table]| == 512
      ensures next != NONE ==>
              next in place && place[next] == Place(old(place)[table].level - 1, Down(old(place)[table].prefix, index))
      ensures old(tables)[table][index].present ==> next != NONE
      ensures next == NONE ==> !create || old(pool) == {}
      ensures !create || old(pool) == {} ==> (next != NONE <==> old(tables)[table][index].present)
      ensures old(tables)[table][index].present || next == NONE ==>
              tables == old(tables) && pool == old(pool) && place == old(place)
      ensures next != NONE && !old(tables)[table][index].present ==>
                && next !in old(place) && next != table && |pool| == |old(pool)| - 1 && PageAddress(next)
                && place == old(place)[next := place[next]]
                && tables == Hung(old(tables), table, index, next, Link(next))
      ensures Stock(place, pool) == old(Stock(place, pool))
    {
      hide *;
      ValidParts();
      PagesParts(place, pool);
      PlaceOf(tables, root, place, table);
      var entry := tables[table][index];
      if !entry.present {
        if !create { return NONE; }
        next := Hang(table, index);
        return;
      }
      next := NONE;
      ChildPlace(tables, root, place, table, index);
      if entry.huge { return; }
      next := entry.frame;
    }

    /** `map`: the page gets the frame and the flags, no other page is touched; without
        memory for the missing tables nothing is mapped differently. */
    method Map(virtual: nat, physical: bv64, flags: Flags) returns (ok: bool)
      requires Valid()
      modifies `tables, `pool, `place, `pages
      ensures Valid()
      ensures pages == if ok then old(pages)[PageOf(virtual) := Leaf(physical, flags, nx)] else old(pages)
      ensures ok <==> old(root) != NONE && PageAligned(virtual) && physical % 4096 == 0
                      && Gap(old(tables), old(root), PageOf(virtual), 3) <= |old(pool)|
      ensures Stock(place, pool) == old(Stock(place, pool)) && old(Owned()) <= Owned()
    {
      hide *;
      if root == NONE { return false; }
      if !PageAligned(virtual) || physical % 4096 != 0 { return false; }
      ghost var v := PageOf(virtual);
      var table := root;
      var level := 3;
      PrefixTop(v);
      ValidParts();
      RootPlace(tables, root, place);
      while level > 0
        invariant 0 <= level <= 3 && Valid() && table in place && place[table] == Place(level, Prefix(v, level))
        invariant pages == old(pages) && Stock(place, pool) == old(Stock(place, pool)) && old(Owned()) <= Owned()
        invariant |old(pool)| - Gap(old(tables), root, v, 3) == |pool| - Gap(tables, root, v, level)
      {
        PrefixDown(v, level);
        ghost var was: Tables, wasPlace: map<Page, Place> := tables, place;
        ValidParts();
        PlaceOf(tables, root, place, table);
        var next := Descend(table, IndexIn(virtual, level), true);
        if next == NONE {
          assert Gap(tables, root, v, level) > 0 by { GapEmpty(tables, root, place, table, v, level); }
          return false;
        }
        StepDown(was, tables, root, wasPlace, place, table, next, v, level);
        table := next;
        level := level - 1;
      }
      GapNone(tables, root, v);
      SetLeaf(table, IndexIn(virtual, 0), v, Leaf(physical, flags, nx));
      return true;
    }

    /** One last-level entry written. */
    method SetLeaf(table: Page, index: nat, ghost v: nat, e: Entry)
      requires index == IndexOf(v, 0) && root != NONE && table in place && place[table] == Place(0, Prefix(v, 0))
               && Valid()
      modifies `tables, `pages
      ensures Valid()
      ensures pages == if e.present then old(pages)[v := e] else old(pages) - {v}
    {
      hide Shape, TableAt, Mapped;
      PlaceOf(tables, root, place, table);
      UpIs(v);
      DownIs(v);
      hide Down, Up;
      ghost var was: Tables, wasPages: map<nat, Entry> := tables, pages;
      tables := tables[table := tables[table][index := e]];
      pages := if e.present then pages[v := e] else pages - {v};
      ShapeLeaf(was, root, place, table, index, e);
      forall w: nat ensures Mapped(tables, root, w) == Find(pages, w) {
        MappedLeaf(was, root, place, table, index, e, w);
        assert Mapped(was, root, w) == Find(wasPages, w);
      }
    }

    /** `unmap`: fails exactly when the page is not mapped; otherwise that page alone
        goes. */
    method Unmap(virtual: nat) returns (ok: bool)
      requires Valid()
      modifies `tables, `pool, `place, `pages
      ensures Valid()
      ensures ok <==> PageAligned(virtual) && PageOf(virtual) in old(pages)
      ensures pages == if ok then old(pages) - {PageOf(virtual)} else old(pages)
      ensures pool == old(pool) && place == old(place)
    {
      hide Shape, TableAt, Mapped, Down, Hung, Link, IndexOf, Prefix, Child;
      if root == NONE || !PageAligned(virtual) { return false; }
      ghost var v := PageOf(virtual);
      var table := root;
      var level := 3;
      PrefixTop(v);
      RootPlace(tables, root, place);
      while level > 0
        invariant 0 <= level <= 3 && Valid() && table in place && place[table] == Place(level, Prefix(v, level))
        invariant tables == old(tables) && pool == old(pool) && place == old(place) && pages == old(pages)
      {
        PrefixDown(v, level);
        var next := Descend(table, IndexIn(virtual, level), false);
        if next == NONE {
          Unreached(tables, root, place, table, v, level);
          assert Mapped(tables, root, v) == Find(pages, v);
          return false;
        }
        table := next;
        level := level - 1;
      }
      PlaceOf(tables, root, place, table);
      MappedAt(tables, root, place, table, v);
      assert Mapped(tables, root, v) == Find(pages, v);
      if !tables[table][IndexIn(virtual, 0)].present { return false; }
      SetLeaf(table, IndexIn(virtual, 0), v, EMPTY);
      return true;
    }

    /** `translate`: the abstract map, at every address.  It answers 0 for an address that
        is not mapped, and for one that is: offset 0 of frame 0. */
    method Translate(virtual: nat) returns (r: bv64)
      requires Valid()
      ensures r == Physical(Find(pages, PageOf(virtual)), Offset(virtual))
      ensures r == 0 <==>
              Unmapped(Find(pages, PageOf(virtual))) || FrameStart(Find(pages, PageOf(virtual)), Offset(virtual))
    {
      hide *;
      r := Walk(virtual);
      ZeroAnswer(Find(pages, PageOf(virtual)), Offset(virtual));
    }

    /** The walk down the tables. */
    method Walk(virtual: nat) returns (r: bv64)
      requires Valid()
      ensures r == Physical(Find(pages, PageOf(virtual)), Offset(virtual))
    {
      hide Shape, TableAt, Mapped, Down, IndexOf, Prefix, Child, HugeAddress;
      if root == NONE { return 0; }
      ghost var v := PageOf(virtual);
      assert Mapped(tables, root, v) == Find(pages, v);
      var table := root;
      var level := 3;
      PrefixTop(v);
      RootPlace(tables, root, place);
      while level > 0
        invariant 0 <= level <= 3 && table in place && place[table] == Place(level, Prefix(v, level))
      {
        PrefixDown(v, level);
        PlaceOf(tables, root, place, table);
        var entry := tables[table][IndexIn(virtual, level)];
        if !entry.present {
          Unreached(tables, root, place, table, v, level);
          return 0;
        }
        var inside := HugeAddress(entry.frame, level, virtual);
        ChildPlace(tables, root, place, table, IndexOf(v, level));
        if entry.huge { return inside; }
        table := entry.frame;
        level := level - 1;
      }
      PlaceOf(tables, root, place, table);
      MappedAt(tables, root, place, table, v);
      var entry := tables[table][IndexIn(virtual, 0)];
      if !entry.present { return 0; }
      return entry.frame.address | Offset(virtual);
    }

    /** `free_page`: a page in use goes back, once. */
    method FreePage(page: Page)
      requires page in tables && page !in pool
      modifies `tables, `pool
      ensures tables == old(tables) - {page} && pool == old(pool) + {page}
    {
      tables := tables - {page};
      pool := pool + {page};
    }

    /** `free_level`: gives back the table and every table below it, each once, and
        nothing else. */
    method FreeLevel(page: Page, level: nat, ghost t: Tables, ghost x: nat)
      requires level <= 3 && page in place && place[page] == Place(level, x) && Shape(t, root, place)
      requires forall q :: q in Sub(place, level, x) ==> q in tables && q in t && tables[q] == t[q] && q !in pool
      modifies `tables, `pool
      ensures tables == old(tables) - Sub(place, level, x)
      ensures pool == old(pool) + Sub(place, level, x)
      decreases level
    {
      hide *;
      PlaceOf(t, root, place, page);
      DoneAll(t, root, place, page, level, x);
      DoneNone(place, level, x);
      if level > 0 {
        for i := 0 to 512
          invariant tables == old(tables) - Done(place, level, x, i)
          invariant pool == old(pool) + Done(place, level, x, i)
        {
          DoneStep(place, level, x, i);
          DoneSub(place, level, x, i);
          DoneSub(place, level, x, i + 1);
          DoneNotSelf(place, page, i);
          var entry := tables[page][i];
          if !entry.present || entry.huge {
            EmptySub(t, root, place, page, level, x, i);
            continue;
          }
          ChildPlace(t, root, place, page, i);
          FreeLevel(entry.frame, level - 1, t, Down(x, i));
        }
      } else {
        DoneLast(place, x);
      }
      FreePage(page);
    }

    /** `destroy`: every page the tree took goes back, and only those. */
    method Destroy()
      requires Valid()
      modifies this
      ensures Valid() && root == NONE && Owned() == {}
      ensures pool == old(pool) + old(Owned())
    {
      if root == NONE { return; }
      hide *;
      ValidParts();
      RootPlace(tables, root, place);
      WholeSub(tables, root, place);
      PagesParts(place, pool);
      PagesGive(place, pool);
      FreeLevel(root, 3, tables, 0);
      assert tables == map[];
      root := NONE;
      place, pages := map[], map[];
      ValidNone();
    }
  }

  lemma HungIs(t: Tables, q: Page, i: nat, n: Page, e: Entry, t': Tables)
    requires q in t && i < |t[q]| && n != q && t' == t[n := Blank()][q := t[q][i := e]]
    ensures t' == Hung(t, q, i, n, e)
  {
  }

  /** One step down, through a table that was there or a new one. */
  lemma StepDown(t: Tables, t': Tables, root: Page, place: map<Page, Place>, place': map<Page, Place>, q: Page, n: Page,
                 v: nat, l: nat)
    requires 0 < l <= 3 && q in place && q in t && |t[q]| == 512 && place[q] == Place(l, Prefix(v, l))
             && Shape(t, root, place)
    requires if t[q][IndexOf(v, l)].present then t' == t && place' == place
             else
               && n !in place && n != q && PageAddress(n) && t' == Hung(t, q, IndexOf(v, l), n, Link(n))
               && n in place' && place' == place[n := place'[n]]
    ensures Gap(t', root, v, l - 1) == Gap(t, root, v, l) - (if t[q][IndexOf(v, l)].present then 0 else 1)
    ensures place.Keys <= place'.Keys
  {
    hide *;
    PrefixDown(v, l);
    if t[q][IndexOf(v, l)].present {
      ChildPlace(t, root, place, q, IndexOf(v, l));
      GapStep(t, root, v, l);
    } else {
      GapHung(t, root, place, q, n, Link(n), v, l);
    }
  }

  /** With a new table hung in, the tree is sound and stands for the same map. */
  lemma HungTree(t: Tables, root: Page, place: map<Page, Place>, q: Page, i: nat, n: Page, pages: map<nat, Entry>)
    requires q in place && q in t && |t[q]| == 512 && place[q].level > 0 && i < 512 && !t[q][i].present
             && t.Keys == place.Keys
    requires n !in place && PageAddress(n) && (forall v: nat :: Mapped(t, root, v) == Find(pages, v))
             && Shape(t, root, place)
    ensures var t', place' :=
            Hung(t, q, i, n, Link(n)), place[n := Place(place[q].level - 1, Down(place[q].prefix, i))];
            t'.Keys == place'.Keys && Shape(t', root, place') && forall v: nat :: Mapped(t', root, v) == Find(pages, v)
  {
    hide *;
    ShapeHung(t, root, place, q, i, n, Link(n));
    forall v: nat ensures Mapped(Hung(t, q, i, n, Link(n)), root, v) == Find(pages, v) {
      MappedHung(t, root, place, q, i, n, Link(n), v);
    }
  }

  /** A missing entry leaves a gap. */
  lemma GapEmpty(t: Tables, root: Page, place: map<Page, Place>, q: Page, v: nat, l: nat)
    requires 0 < l <= 3 && q in place && q in t && |t[q]| == 512 && place[q] == Place(l, Prefix(v, l))
             && !t[q][IndexOf(v, l)].present && Shape(t, root, place)
    ensures Gap(t, root, v, l) == l
  {
    hide *;
    OkKept(t, q);
    PrefixDown(v, l);
    NothingBelow(t, root, place, q, IndexOf(v, l), l - 1, Prefix(v, l - 1));
    GapMissing(t, root, v, l);
  }

  /** Below a missing entry no page is mapped. */
  lemma Unreached(t: Tables, root: Page, place: map<Page, Place>, q: Page, v: nat, l: nat)
    requires 0 < l <= 3 && q in place && q in t && |t[q]| == 512 && place[q] == Place(l, Prefix(v, l))
             && !t[q][IndexOf(v, l)].present && Shape(t, root, place)
    ensures Mapped(t, root, v).None?
  {
    hide *;
    OkKept(t, q);
    PrefixDown(v, l);
    NothingBelow(t, root, place, q, IndexOf(v, l), l - 1, Prefix(v, l - 1));
    NoneDown(t, root, v, l - 1);
  }

  lemma {:induction false} NoneDown(t: Tables, root: Page, v: nat, l: nat)
    requires l <= 2 && TableAt(t, root, l, Prefix(v, l)).None?
    ensures Mapped(t, root, v).None?
  {
    UpIs(v);
    if l > 0 {
      hide TableAt, Mapped;
      PrefixDown(v, l);
      TableStep(t, root, l - 1, Prefix(v, l - 1));
      NoneDown(t, root, v, l - 1);
    }
  }

  /** At the last level the entry is what the page maps to. */
  lemma MappedAt(t: Tables, root: Page, place: map<Page, Place>, p: Page, v: nat)
    requires p in place && p in t && |t[p]| == 512 && place[p] == Place(0, Prefix(v, 0)) && Shape(t, root, place)
    ensures Mapped(t, root, v) == if t[p][IndexOf(v, 0)].present then Some(t[p][IndexOf(v, 0)]) else None
  {
    PlaceOf(t, root, place, p);
    UpIs(v);
    hide Shape, TableAt, Up;
  }

  lemma DoneNotSelf(place: map<Page, Place>, p: Page, i: nat)
    requires p in place
    ensures p !in Done(place, place[p].level, place[p].prefix, i)
  {
  }

  lemma DoneLast(place: map<Page, Place>, x: nat)
    ensures Done(place, 0, x, 512) == {}
  {
  }

  /** A cleared root is a tree that maps nothing. */
  lemma RootAlone(t: Tables, root: Page)
    requires t == map[root := Blank()]
    ensures Shape(t, root, map[root := Place(3, 0)])
    ensures forall v: nat :: Mapped(t, root, v).None?
  {
    hide TableAt;
    TableTop(t, root, 0);
    forall l, x | 0 <= l <= 3 && TableAt(t, root, l, x).Some?
           ensures l == 3 && x == 0 && TableAt(t, root, l, x) == Some(root) {
      AloneAt(t, root, l, x);
    }
    forall v: nat ensures Mapped(t, root, v).None? {
      AloneAt(t, root, 0, v / 512);
    }
  }

  lemma {:induction false} AloneAt(t: Tables, root: Page, l: nat, x: nat)
    requires l <= 3 && t == map[root := Blank()]
    ensures TableAt(t, root, l, x) == if l == 3 && x == 0 then Some(root) else None
    decreases 3 - l
  {
    if l < 3 { AloneAt(t, root, l + 1, x / 512); }
  }

  // ------------------------------------------------------------ an ambiguous answer

  /** Page 1 is mapped to frame 0 and page 2 is not mapped: `translate` answers 0 for both. */
  method FrameZero() returns (t: PageTable, mapped: bv64, unmapped: bv64)
    ensures 1 in t.pages && t.pages[1].present && 2 !in t.pages && mapped == 0 && unmapped == 0
  {
    var free := {Page(0x1000), Page(0x2000), Page(0x3000), Page(0x4000)};
    FourPages(free);
    t := new PageTable(free, true);
    NothingMapped(t);
    hide *;
    var ok := t.Initialize();
    OneLess(free, t.root);
    Aligned(Leaf(0, Flags(true, false, false), true));
    ok := t.Map(4096, 0, Flags(true, false, false));
    LeafPresent(Flags(true, false, false), true);
    mapped := t.Translate(4096);
    unmapped := t.Translate(8192);
  }

  lemma FourPages(free: set<Page>)
    requires free == {Page(0x1000), Page(0x2000), Page(0x3000), Page(0x4000)}
    ensures |free| == 4 && NONE !in free && forall p :: p in free ==> PageAddress(p)
  {
  }

  lemma NothingMapped(t: PageTable)
    requires t.root == NONE && t.Valid()
    ensures t.pages == map[]
  {
  }

  lemma OneLess(free: set<Page>, root: Page)
    requires |free| == 4 && root in free
    ensures |free - {root}| == 3
  {
  }

  lemma Aligned(e: Entry)
    ensures PageAligned(4096) && PageOf(4096) == 1 && PageOf(8192) == 2 && Offset(4096) == 0
    ensures Find(map[][1 := e], 1) == Some(e) && Find(map[][1 := e], 2) == None && Unmapped(None)
    ensures e.frame.address == 0 ==> FrameStart(Some(e), 0)
  {
  }

  lemma LeafPresent(flags: Flags, nx: bool)
    ensures Leaf(0, flags, nx).present && Leaf(0, flags, nx).frame.address == 0
  {
  }
}
