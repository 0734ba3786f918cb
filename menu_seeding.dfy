// The seeding script that fills every active store's menu with a random
// handful of dishes from a template chosen by the store's name.
module MenuSeeding {
  import opened Wrappers
  import opened Text
  import opened MenuModel
  import opened OrderEngine

  // ---------------------------------------------------------------------
  // Menu types
  // ---------------------------------------------------------------------

  datatype MenuType = Bun | Com | BanhMi | Pho | Default

  /** The keywords the classifier looks for, in the order it tests them. */
  const Keywords: seq<(string, MenuType)> := [("bún", Bun), ("cơm", Com), ("bánh mì", BanhMi), ("phở", Pho)]

  /** `get_menu_type`: the first keyword found in the lower-cased name. */
  function GetMenuType(name: string): (t: MenuType)
    ensures t == Bun <==> Contains(Lower(name), "bún")
    ensures t == Default <==> (&& !Contains(Lower(name), "bún") && !Contains(Lower(name), "cơm")
                               && !Contains(Lower(name), "bánh mì") && !Contains(Lower(name), "phở"))
  {
    var s := Lower(name);
    if Contains(s, "bún") then Bun
    else if Contains(s, "cơm") then Com
    else if Contains(s, "bánh mì") then BanhMi
    else if Contains(s, "phở") then Pho
    else Default
  }

  /** A keyword table read in order: the type of the first keyword `s`
    * contains, `Default` when it contains none. */
  function FirstKeyword(table: seq<(string, MenuType)>, s: string): MenuType
    decreases |table|
  {
    if |table| == 0 then Default
    else if Contains(s, table[0].0) then table[0].1
    else FirstKeyword(table[1..], s)
  }

  /** The classifier is the keyword table read in priority order. */
  lemma GetMenuTypeIsFirstKeyword(name: string)
    ensures GetMenuType(name) == FirstKeyword(Keywords, Lower(name))
  {
    var s := Lower(name);
    assert Keywords[1..][1..][1..][1..] == [];
    assert FirstKeyword(Keywords[1..][1..][1..], s) == (if Contains(s, "phở") then Pho else Default);
  }

  /** The classifier ignores case: a name and its lower-cased form get the
    * same menu. */
  lemma GetMenuTypeIgnoresCase(name: string)
    ensures GetMenuType(Lower(name)) == GetMenuType(name)
  {
    LowerIdempotent(name);
  }

  // ---------------------------------------------------------------------
  // The templates
  // ---------------------------------------------------------------------

  datatype Dish = Dish(name: string, description: string, price: int, stock: int)

  /** The dishes of each menu type. */
  function Menu(t: MenuType): (r: seq<Dish>)
    ensures |r| >= 3
  {
    match t
    case Default => DefaultMenu
    case Bun => BunMenu
    case Com => ComMenu
    case BanhMi => BanhMiMenu
    case Pho => PhoMenu
  }

  const DefaultMenu: seq<Dish> := [
    Dish("Cơm Sườn Nướng", "Cơm với sườn nướng thơm lừng", 45000, 50),
    Dish("Cơm Gà Nướng", "Cơm với gà nướng mật ong", 50000, 40),
    Dish("Cơm Tấm Sườn Bì Chả", "Cơm tấm đầy đủ sườn, bì, chả", 55000, 60),
    Dish("Canh Chua Cá", "Canh chua cá lóc nấu dứa", 60000, 30),
    Dish("Bún Bò Huế", "Bún bò Huế đậm đà", 50000, 35),
    Dish("Phở Bò", "Phở bò truyền thống", 55000, 45),
    Dish("Bánh Mì Thịt Nướng", "Bánh mì với thịt nướng thơm ngon", 30000, 80),
    Dish("Bánh Mì Pate", "Bánh mì pate đặc biệt", 25000, 70),
    Dish("Bún Chả", "Bún chả Hà Nội", 50000, 40),
    Dish("Bún Riêu Cua", "Bún riêu cua đậm đà", 50000, 35)]

  const BunMenu: seq<Dish> := [
    Dish("Bún Bò Huế", "Bún bò Huế đậm đà", 50000, 35),
    Dish("Bún Chả", "Bún chả Hà Nội", 50000, 40),
    Dish("Bún Riêu Cua", "Bún riêu cua đậm đà", 50000, 35),
    Dish("Bún Thịt Nướng", "Bún thịt nướng thơm ngon", 45000, 50),
    Dish("Bún Mọc", "Bún mọc giò heo", 45000, 40)]

  const ComMenu: seq<Dish> := [
    Dish("Cơm Sườn Nướng", "Cơm với sườn nướng thơm lừng", 45000, 50),
    Dish("Cơm Gà Nướng", "Cơm với gà nướng mật ong", 50000, 40),
    Dish("Cơm Tấm Sườn Bì Chả", "Cơm tấm đầy đủ sườn, bì, chả", 55000, 60),
    Dish("Cơm Gà Xối Mỡ", "Cơm gà xối mỡ giòn tan", 50000, 45),
    Dish("Cơm Niêu", "Cơm niêu đất nung", 60000, 30)]

  const BanhMiMenu: seq<Dish> := [
    Dish("Bánh Mì Thịt Nướng", "Bánh mì với thịt nướng thơm ngon", 30000, 80),
    Dish("Bánh Mì Pate", "Bánh mì pate đặc biệt", 25000, 70),
    Dish("Bánh Mì Chả Cá", "Bánh mì chả cá", 35000, 60),
    Dish("Bánh Mì Chả Lụa", "Bánh mì chả lụa", 30000, 65)]

  const PhoMenu: seq<Dish> := [
    Dish("Phở Bò", "Phở bò truyền thống", 55000, 45),
    Dish("Phở Gà", "Phở gà thơm ngon", 50000, 40),
    Dish("Phở Tái", "Phở tái chín", 55000, 45)]

  predicate NamesDistinct(dishes: seq<Dish>)
  {
    forall i, j :: 0 <= i < j < |dishes| ==> dishes[i].name != dishes[j].name
  }

  /** No dish name twice, and a positive price and stock for every dish. */
  predicate WellFormedMenu(dishes: seq<Dish>)
  {
    && NamesDistinct(dishes)
    && forall i :: 0 <= i < |dishes| ==> dishes[i].price > 0 && dishes[i].stock > 0
  }

  /** The default template's ten names, compared in three groups. */
  lemma DefaultMenuWellFormed() ensures WellFormedMenu(DefaultMenu)
  {
    DefaultNamesDistinct(0, 5, 0, 5);
    DefaultNamesDistinct(0, 5, 5, 10);
    DefaultNamesDistinct(5, 10, 5, 10);
  }

  lemma DefaultNamesDistinct(lo: nat, hi: nat, lo': nat, hi': nat)
    requires (lo, hi, lo', hi') in {(0, 5, 0, 5), (0, 5, 5, 10), (5, 10, 5, 10)}
    ensures forall i, j :: lo <= i < hi && lo' <= j < hi' && i < j ==> DefaultMenu[i].name != DefaultMenu[j].name
  {
  }

  lemma BunMenuWellFormed() ensures WellFormedMenu(BunMenu) { }
  lemma ComMenuWellFormed() ensures WellFormedMenu(ComMenu) { }
  lemma BanhMiMenuWellFormed() ensures WellFormedMenu(BanhMiMenu) { }
  lemma PhoMenuWellFormed() ensures WellFormedMenu(PhoMenu) { }

  /** No template lists a dish twice, and every dish has a positive price
    * and stock. */
  lemma MenuWellFormed(t: MenuType)
    ensures NamesDistinct(Menu(t))
    ensures forall i :: 0 <= i < |Menu(t)| ==> Menu(t)[i].price > 0 && Menu(t)[i].stock > 0
  {
    match t {
      case Default => DefaultMenuWellFormed();
      case Bun => BunMenuWellFormed();
      case Com => ComMenuWellFormed();
      case BanhMi => BanhMiMenuWellFormed();
      case Pho => PhoMenuWellFormed();
    }
  }

  // ---------------------------------------------------------------------
  // One store's new dishes
  // ---------------------------------------------------------------------

  function Min(a: nat, b: nat): nat { if a <= b then a else b }

  /** What `random.sample(items, min(k, len(items)))` with `k` drawn from
    * 5..8 can return for the template `menu`: its dishes, none taken
    * twice, as many as `min(k, n)`. */
  predicate IsSample(sample: seq<Dish>, menu: seq<Dish>)
  {
    && (forall i :: 0 <= i < |sample| ==> sample[i] in menu)
    && (forall i, j :: 0 <= i < j < |sample| ==> sample[i] != sample[j])
    && Min(5, |menu|) <= |sample| <= Min(8, |menu|)
  }

  /** The dish row the script builds from a template entry. */
  function ItemOf(merchant: int, d: Dish): (r: MenuItem)
    ensures r.merchant == merchant && r.name == d.name && r.description == Some(d.description)
    ensures r.price == d.price && r.stock == d.stock && r.available
  {
    MenuItem(merchant, d.name, Some(d.description), d.price, d.stock, true)
  }

  /** The rows created for the store `id` from the sampled dishes. */
  function RowsFor(id: int, sample: seq<Dish>): seq<MenuItem>
  {
    seq(|sample|, i requires 0 <= i < |sample| => ItemOf(id, sample[i]))
  }

  /** `r` is the row built for store `id` from one of the dishes of `menu`. */
  predicate FromMenu(menu: seq<Dish>, id: int, r: MenuItem)
  {
    exists d :: d in menu && r == ItemOf(id, d)
  }

  /** Two dishes of a template with the same name are the same dish. */
  lemma SameNameSameDish(t: MenuType, d: Dish, e: Dish)
    requires d in Menu(t) && e in Menu(t) && d.name == e.name
    ensures d == e
  {
    var menu := Menu(t);
    MenuWellFormed(t);
    var p :| 0 <= p < |menu| && menu[p] == d;
    var q :| 0 <= q < |menu| && menu[q] == e;
    assert forall i, j :: 0 <= i < |menu| && 0 <= j < |menu| && menu[i].name == menu[j].name ==> i == j;
  }

  /** A store gets between min(5, n) and min(8, n) dishes of its template
    * (n the template's size), no two with the same name, all available
    * and copied from the template. */
  lemma RowsForFacts(id: int, name: string, sample: seq<Dish>)
    requires IsSample(sample, Menu(GetMenuType(name)))
    ensures Min(5, |Menu(GetMenuType(name))|) <= |RowsFor(id, sample)| <= Min(8, |Menu(GetMenuType(name))|)
    ensures forall i, j :: 0 <= i < j < |RowsFor(id, sample)| ==>
              RowsFor(id, sample)[i].name != RowsFor(id, sample)[j].name
    ensures forall i :: 0 <= i < |RowsFor(id, sample)| ==> FromMenu(Menu(GetMenuType(name)), id, RowsFor(id, sample)[i])
  {
    var t := GetMenuType(name);
    var rows := RowsFor(id, sample);
    forall i, j | 0 <= i < j < |rows| ensures rows[i].name != rows[j].name {
      if sample[i].name == sample[j].name {
        SameNameSameDish(t, sample[i], sample[j]);
      }
    }
    forall i | 0 <= i < |rows| ensures FromMenu(Menu(t), id, rows[i]) {
      assert sample[i] in Menu(t) && rows[i] == ItemOf(id, sample[i]);
    }
  }

  /** `items_to_create`, built one row at a time. */
  method BuildRows(id: int, sample: seq<Dish>) returns (rows: seq<MenuItem>)
    ensures rows == RowsFor(id, sample)
  {
    rows := [];
    var i := 0;
    while i < |sample|
      invariant 0 <= i <= |sample|
      invariant rows == RowsFor(id, sample[..i])
    {
      rows := rows + [ItemOf(id, sample[i])];
      i := i + 1;
    }
    assert sample[..i] == sample;
  }

  // ---------------------------------------------------------------------
  // All stores
  // ---------------------------------------------------------------------

  /** One sample per queued store, and every queued store exists. */
  predicate Queued(merchants: map<int, Merchant>, queue: seq<int>, samples: seq<seq<Dish>>)
  {
    |samples| == |queue| && forall k :: 0 <= k < |queue| ==> queue[k] in merchants
  }

  /** `queue` is what `Merchant.objects.filter(is_active=True)` yields:
    * every active store, once, and no other. */
  ghost predicate ActiveQueue(merchants: map<int, Merchant>, queue: seq<int>)
  {
    && (forall id :: id in queue <==> id in merchants && merchants[id].active)
    && (forall i, j :: 0 <= i < j < |queue| ==> queue[i] != queue[j])
  }

  /** The random choices line up with the stores: one sample per queued
    * store, each a proper sample of that store's template. */
  predicate SamplesFit(merchants: map<int, Merchant>, queue: seq<int>, samples: seq<seq<Dish>>)
  {
    && Queued(merchants, queue, samples)
    && forall k :: 0 <= k < |queue| ==> IsSample(samples[k], Menu(GetMenuType(merchants[queue[k]].name)))
  }

  /** Every row the script creates for the first `n` stores of `queue`,
    * in creation order: each store in turn with the rows of its sample. */
  function SeededUpTo(merchants: map<int, Merchant>, queue: seq<int>, samples: seq<seq<Dish>>, n: nat): seq<MenuItem>
    requires Queued(merchants, queue, samples) && n <= |queue|
    decreases n
  {
    if n == 0 then []
    else
      SeededUpTo(merchants, queue, samples, n - 1) + RowsFor(queue[n - 1], samples[n - 1])
  }

  /** One more store adds its rows after the earlier ones. */
  lemma SeededStep(merchants: map<int, Merchant>, queue: seq<int>, samples: seq<seq<Dish>>, k: nat)
    requires Queued(merchants, queue, samples) && k < |queue|
    ensures SeededUpTo(merchants, queue, samples, k + 1)
      == SeededUpTo(merchants, queue, samples, k) + RowsFor(queue[k], samples[k])
  {
  }

  /** Every row the script creates. */
  function Seeded(merchants: map<int, Merchant>, queue: seq<int>, samples: seq<seq<Dish>>): seq<MenuItem>
    requires Queued(merchants, queue, samples)
  {
    SeededUpTo(merchants, queue, samples, |queue|)
  }

  /** A store is seeded when it is active and receives only dishes of its
    * own template, all available. */
  predicate SeededRow(merchants: map<int, Merchant>, r: MenuItem)
  {
    && r.merchant in merchants && merchants[r.merchant].active && r.available
    && FromMenu(Menu(GetMenuType(merchants[r.merchant].name)), r.merchant, r)
  }

  /** Only active stores get dishes, and every created dish is available
    * and is a template dish of its store's menu type. */
  lemma {:induction false} SeededRows(merchants: map<int, Merchant>, queue: seq<int>, samples: seq<seq<Dish>>, n: nat)
    requires SamplesFit(merchants, queue, samples) && n <= |queue|
    requires forall k :: 0 <= k < |queue| ==> merchants[queue[k]].active
    ensures forall r :: r in SeededUpTo(merchants, queue, samples, n) ==> SeededRow(merchants, r)
    decreases n
  {
    if n > 0 {
      SeededRows(merchants, queue, samples, n - 1);
      var m := merchants[queue[n - 1]];
      RowsForFacts(queue[n - 1], m.name, samples[n - 1]);
      var last := RowsFor(queue[n - 1], samples[n - 1]);
      forall r | r in last ensures SeededRow(merchants, r) {
        var i :| 0 <= i < |last| && last[i] == r;
      }
    }
  }

  /** Every sampled dish of every store among the first `n` is created. */
  lemma {:induction false} SeededComplete(merchants: map<int, Merchant>, queue: seq<int>, samples: seq<seq<Dish>>, n: nat)
    requires Queued(merchants, queue, samples) && n <= |queue|
    ensures forall k, j :: 0 <= k < n && 0 <= j < |samples[k]| ==>
              ItemOf(queue[k], samples[k][j]) in SeededUpTo(merchants, queue, samples, n)
    decreases n
  {
    if n > 0 {
      SeededComplete(merchants, queue, samples, n - 1);
      var rows := SeededUpTo(merchants, queue, samples, n);
      var prev := SeededUpTo(merchants, queue, samples, n - 1);
      forall k, j | 0 <= k < n && 0 <= j < |samples[k]|
        ensures ItemOf(queue[k], samples[k][j]) in rows
      {
        if k < n - 1 {
          assert ItemOf(queue[k], samples[k][j]) in prev;
        } else {
          var last := RowsFor(queue[k], samples[k]);
          assert rows == prev + last;
          assert last[j] in rows;
        }
      }
    }
  }

  /** How many of `rows` belong to the store `id`. */
  function CountFor(rows: seq<MenuItem>, id: int): nat
    decreases |rows|
  {
    if |rows| == 0 then 0
    else CountFor(rows[..|rows| - 1], id) + (if rows[|rows| - 1].merchant == id then 1 else 0)
  }

  lemma {:induction false} CountAppend(a: seq<MenuItem>, b: seq<MenuItem>, id: int)
    ensures CountFor(a + b, id) == CountFor(a, id) + CountFor(b, id)
    decreases |b|
  {
    if |b| == 0 {
      assert a + b == a;
    } else {
      assert (a + b)[..|a + b| - 1] == a + b[..|b| - 1];
      CountAppend(a, b[..|b| - 1], id);
    }
  }

  /** The rows built for one store all belong to it. */
  lemma {:induction false} CountRows(store: int, sample: seq<Dish>, id: int)
    ensures CountFor(RowsFor(store, sample), id) == if store == id then |sample| else 0
    decreases |sample|
  {
    if |sample| > 0 {
      var n := |sample| - 1;
      assert RowsFor(store, sample)[..n] == RowsFor(store, sample[..n]);
      CountRows(store, sample[..n], id);
    }
  }

  /** With every store queued once, the `k`-th store has exactly the rows
    * of its own sample once the loop has passed it, and none before. */
  lemma {:induction false} CountSeededAt(merchants: map<int, Merchant>, queue: seq<int>, samples: seq<seq<Dish>>,
                                         n: nat, k: nat)
    requires Queued(merchants, queue, samples) && n <= |queue| && k < |queue|
    requires forall i, j :: 0 <= i < j < |queue| ==> queue[i] != queue[j]
    ensures CountFor(SeededUpTo(merchants, queue, samples, n), queue[k]) == if k < n then |samples[k]| else 0
    decreases n
  {
    if n > 0 {
      CountSeededAt(merchants, queue, samples, n - 1, k);
      CountAppend(SeededUpTo(merchants, queue, samples, n - 1), RowsFor(queue[n - 1], samples[n - 1]), queue[k]);
      CountRows(queue[n - 1], samples[n - 1], queue[k]);
      if n - 1 != k {
        assert queue[n - 1] != queue[k] by {
          if k < n - 1 { assert 0 <= k < n - 1 < |queue|; } else { assert 0 <= n - 1 < k < |queue|; }
        }
      }
    }
  }

  /** A store that is not queued gets no rows. */
  lemma {:induction false} CountSeededAbsent(merchants: map<int, Merchant>, queue: seq<int>, samples: seq<seq<Dish>>,
                                             n: nat, id: int)
    requires Queued(merchants, queue, samples) && n <= |queue| && id !in queue
    ensures CountFor(SeededUpTo(merchants, queue, samples, n), id) == 0
    decreases n
  {
    if n > 0 {
      CountSeededAbsent(merchants, queue, samples, n - 1, id);
      CountAppend(SeededUpTo(merchants, queue, samples, n - 1), RowsFor(queue[n - 1], samples[n - 1]), id);
      assert queue[n - 1] in queue;
      CountRows(queue[n - 1], samples[n - 1], id);
    }
  }

  /** Store by store: every active store has between min(5, n) and
    * min(8, n) of `rows` (n its template's size), every inactive one
    * none. */
  ghost predicate StoreCounts(merchants: map<int, Merchant>, rows: seq<MenuItem>)
  {
    forall id :: id in merchants ==>
      if merchants[id].active then
        Min(5, |Menu(GetMenuType(merchants[id].name))|) <= CountFor(rows, id) <= Min(8, |Menu(GetMenuType(merchants[id].name))|)
      else CountFor(rows, id) == 0
  }

  /** The run over all active stores gives each store its share of dishes,
    * and every created dish is an available dish of its store's template. */
  lemma SeedingTable(merchants: map<int, Merchant>, queue: seq<int>, samples: seq<seq<Dish>>)
    requires SamplesFit(merchants, queue, samples) && ActiveQueue(merchants, queue)
    ensures StoreCounts(merchants, Seeded(merchants, queue, samples))
    ensures forall r :: r in Seeded(merchants, queue, samples) ==> SeededRow(merchants, r)
  {
    forall id | id in merchants && merchants[id].active
      ensures Min(5, |Menu(GetMenuType(merchants[id].name))|) <= CountFor(Seeded(merchants, queue, samples), id)
                                                              <= Min(8, |Menu(GetMenuType(merchants[id].name))|)
    {
      var k :| 0 <= k < |queue| && queue[k] == id;
      CountSeededAt(merchants, queue, samples, |queue|, k);
    }
    forall id | id in merchants && !merchants[id].active
      ensures CountFor(Seeded(merchants, queue, samples), id) == 0
    {
      CountSeededAbsent(merchants, queue, samples, |queue|, id);
    }
    assert forall k :: 0 <= k < |queue| ==> queue[k] in queue;
    SeededRows(merchants, queue, samples, |queue|);
  }

  /** The dish table after a bulk insert of `rows` with primary keys
    * `from`, `from + 1`, ... */
  function AddRows(items: map<int, MenuItem>, from: int, rows: seq<MenuItem>): map<int, MenuItem>
    decreases |rows|
  {
    if |rows| == 0 then items
    else AddRows(items, from, rows[..|rows| - 1])[from + |rows| - 1 := rows[|rows| - 1]]
  }

  /** A bulk insert past every existing key keeps the old rows and adds the
    * new ones under consecutive keys. */
  lemma {:induction false} AddRowsFacts(items: map<int, MenuItem>, from: int, rows: seq<MenuItem>)
    requires forall k :: k in items ==> k < from
    ensures var after := AddRows(items, from, rows);
      && (forall k :: k in after <==> k in items || from <= k < from + |rows|)
      && (forall k :: k in items ==> after[k] == items[k])
      && (forall j :: 0 <= j < |rows| ==> after[from + j] == rows[j])
    decreases |rows|
  {
    if |rows| > 0 {
      var init := rows[..|rows| - 1];
      AddRowsFacts(items, from, init);
      forall j | 0 <= j < |init| ensures init[j] == rows[j] { }
    }
  }

  lemma {:induction false} AddRowsAppend(items: map<int, MenuItem>, from: int, a: seq<MenuItem>, b: seq<MenuItem>)
    ensures AddRows(items, from, a + b) == AddRows(AddRows(items, from, a), from + |a|, b)
    decreases |b|
  {
    if |b| == 0 {
      assert a + b == a;
    } else {
      assert (a + b)[..|a + b| - 1] == a + b[..|b| - 1];
      AddRowsAppend(items, from, a, b[..|b| - 1]);
    }
  }

  /** `MenuItem.objects.bulk_create(rows)`, the database handing out keys
    * from `from` on. */
  method BulkCreate(mk: Marketplace, from: int, rows: seq<MenuItem>)
    modifies mk
    ensures mk.items == AddRows(old(mk.items), from, rows)
    ensures mk.merchants == old(mk.merchants) && mk.members == old(mk.members) && mk.orders == old(mk.orders)
    ensures mk.nextOrderId == old(mk.nextOrderId) && mk.nextLineId == old(mk.nextLineId)
  {
    var i := 0;
    while i < |rows|
      invariant 0 <= i <= |rows|
      invariant mk.items == AddRows(old(mk.items), from, rows[..i])
      invariant mk.merchants == old(mk.merchants) && mk.members == old(mk.members) && mk.orders == old(mk.orders)
      invariant mk.nextOrderId == old(mk.nextOrderId) && mk.nextLineId == old(mk.nextLineId)
    {
      assert rows[..i + 1][..i] == rows[..i];
      mk.items := mk.items[from + i := rows[i]];
      i := i + 1;
    }
    assert rows[..i] == rows;
  }

  /** One store's turn in the loop: the rows of its sample, bulk-created. */
  method SeedStore(mk: Marketplace, id: int, sample: seq<Dish>, from: int) returns (rows: seq<MenuItem>)
    modifies mk
    ensures rows == RowsFor(id, sample)
    ensures mk.items == AddRows(old(mk.items), from, rows)
    ensures mk.merchants == old(mk.merchants) && mk.members == old(mk.members) && mk.orders == old(mk.orders)
    ensures mk.nextOrderId == old(mk.nextOrderId) && mk.nextLineId == old(mk.nextLineId)
  {
    rows := BuildRows(id, sample);
    BulkCreate(mk, from, rows);
  }

  /** `create_menu_items`: `queue` is the store ids in the order the query
    * yields them, `samples` the random choices made for them, and
    * `firstId` the next key of the dish table. Returns `total_items`. */
  method CreateMenuItems(mk: Marketplace, queue: seq<int>, samples: seq<seq<Dish>>, firstId: int) returns (total: nat)
    requires SamplesFit(mk.merchants, queue, samples) && ActiveQueue(mk.merchants, queue)
    modifies mk
    ensures mk.items == AddRows(old(mk.items), firstId, Seeded(old(mk.merchants), queue, samples))
    ensures total == |Seeded(old(mk.merchants), queue, samples)|
    ensures StoreCounts(old(mk.merchants), Seeded(old(mk.merchants), queue, samples))
    ensures mk.merchants == old(mk.merchants) && mk.members == old(mk.members) && mk.orders == old(mk.orders)
    ensures mk.nextOrderId == old(mk.nextOrderId) && mk.nextLineId == old(mk.nextLineId)
  {
    SeedingTable(mk.merchants, queue, samples);
    total := SeedStoresInTurn(mk, queue, samples, firstId);
  }

  /** The loop of `create_menu_items`: each queued store in turn gets the
    * rows of its sample, under the keys following the earlier ones. */
  method SeedStoresInTurn(mk: Marketplace, queue: seq<int>, samples: seq<seq<Dish>>, firstId: int) returns (total: nat)
    requires Queued(mk.merchants, queue, samples)
    modifies mk
    ensures mk.items == AddRows(old(mk.items), firstId, Seeded(old(mk.merchants), queue, samples))
    ensures total == |Seeded(old(mk.merchants), queue, samples)|
    ensures mk.merchants == old(mk.merchants) && mk.members == old(mk.members) && mk.orders == old(mk.orders)
    ensures mk.nextOrderId == old(mk.nextOrderId) && mk.nextLineId == old(mk.nextLineId)
  {
    ghost var merchants := mk.merchants;
    total := 0;
    var k := 0;
    while k < |queue|
      invariant 0 <= k <= |queue|
      invariant mk.merchants == merchants && mk.members == old(mk.members) && mk.orders == old(mk.orders)
      invariant total == |SeededUpTo(merchants, queue, samples, k)|
      invariant mk.items == AddRows(old(mk.items), firstId, SeededUpTo(merchants, queue, samples, k))
      invariant mk.nextOrderId == old(mk.nextOrderId) && mk.nextLineId == old(mk.nextLineId)
    {
      ghost var done := SeededUpTo(merchants, queue, samples, k);
      var rows := SeedStore(mk, queue[k], samples[k], firstId + total);
      AddRowsAppend(old(mk.items), firstId, done, rows);
      SeededStep(merchants, queue, samples, k);
      total := total + |rows|;
      k := k + 1;
    }
  }

  /** The whole run: the old dishes stay, the new ones take the keys from
    * `firstId` on, and only active stores receive any. */
  lemma CreateMenuItemsEffect(items: map<int, MenuItem>, merchants: map<int, Merchant>, queue: seq<int>,
                              samples: seq<seq<Dish>>, firstId: int)
    requires SamplesFit(merchants, queue, samples) && ActiveQueue(merchants, queue)
    requires forall k :: k in items ==> k < firstId
    ensures var rows := Seeded(merchants, queue, samples);
      var after := AddRows(items, firstId, rows);
      && (forall k :: k in items ==> k in after && after[k] == items[k])
      && (forall k :: k in after && k !in items ==>
            after[k].available && after[k].merchant in merchants && merchants[after[k].merchant].active)
  {
    var rows := Seeded(merchants, queue, samples);
    AddRowsFacts(items, firstId, rows);
    SeededRows(merchants, queue, samples, |queue|);
    var after := AddRows(items, firstId, rows);
    forall k | k in after && k !in items
      ensures after[k].available && after[k].merchant in merchants && merchants[after[k].merchant].active
    {
      assert after[k] == rows[k - firstId];
      assert rows[k - firstId] in rows;
      assert SeededRow(merchants, rows[k - firstId]);
    }
  }
}
