// The menu tables: merchants, their staff, and the dishes they sell.
module MenuModel {
  import opened Wrappers

  /** A store. Coordinates are optional; a new store is active. */
  datatype Merchant = Merchant(
    owner: int,
    name: string,
    address: string,
    phone: string,
    lat: Option<real>,
    lng: Option<real>,
    active: bool)

  function NewMerchant(owner: int, name: string, address: string, phone: string): (m: Merchant)
    ensures m.owner == owner && m.name == name && m.address == address && m.phone == phone
    ensures m.lat.None? && m.lng.None? && m.active
  {
    Merchant(owner, name, address, phone, None, None, true)
  }

  /** A dish. `stock` is a signed integer column: nothing at this level keeps it
    * non-negative, and `available` is stored independently of it. */
  datatype MenuItem = MenuItem(
    merchant: int,
    name: string,
    description: Option<string>,
    price: int,
    stock: int,
    available: bool)

  function NewMenuItem(merchant: int, name: string, price: int): (m: MenuItem)
    ensures m.merchant == merchant && m.name == name && m.price == price
    ensures m.stock == 0 && m.available && m.description.None?
  {
    MenuItem(merchant, name, None, price, 0, true)
  }

  /** Staff table keyed by (merchant, user): the key makes the pair unique,
    * the value is the member's role label ('owner', 'Manager', ...). */
  type Members = map<(int, int), string>

  /** Adding a member row: refused (an integrity error) when the user is
    * already a member of that store, else the row is stored. */
  function AddMember(members: Members, merchant: int, user: int, role: string): (r: Option<Members>)
    ensures r.None? <==> (merchant, user) in members
    ensures r.Some? ==> r.value.Keys == members.Keys + {(merchant, user)} && r.value[(merchant, user)] == role
    ensures r.Some? ==> forall k :: k in members ==> r.value[k] == members[k]
  {
    if (merchant, user) in members then None else Some(members[(merchant, user) := role])
  }

  /** A menu section of one store; a new one is active. */
  datatype Category = Category(merchant: int, name: string, description: Option<string>, active: bool)

  /** No store has two sections of the same name. */
  predicate CategoriesUnique(cats: map<int, Category>)
  {
    forall a, b :: a in cats && b in cats && a != b ==>
      cats[a].merchant != cats[b].merchant || cats[a].name != cats[b].name
  }

  predicate NameTaken(cats: map<int, Category>, merchant: int, name: string)
  {
    exists k :: k in cats && cats[k].merchant == merchant && cats[k].name == name
  }

  /** Inserting a section under a fresh key: refused when the store already
    * has a section of that name. */
  function AddCategory(cats: map<int, Category>, id: int, c: Category): (r: Option<map<int, Category>>)
    requires id !in cats
    ensures r.None? <==> NameTaken(cats, c.merchant, c.name)
    ensures r.Some? ==> r.value == cats[id := c]
  {
    if exists k :: k in cats && cats[k].merchant == c.merchant && cats[k].name == c.name then None
    else Some(cats[id := c])
  }

  /** The uniqueness rule holds after every accepted insert. */
  lemma AddCategoryKeepsUnique(cats: map<int, Category>, id: int, c: Category)
    requires id !in cats && CategoriesUnique(cats)
    ensures var r := AddCategory(cats, id, c); r.Some? ==> CategoriesUnique(r.value)
  {
    var r := AddCategory(cats, id, c);
    if r.Some? {
      var after := r.value;
      forall a, b | a in after && b in after && a != b
        ensures after[a].merchant != after[b].merchant || after[a].name != after[b].name
      {
        if a == id {
          assert b in cats && after[b] == cats[b];
        } else if b == id {
          assert a in cats && after[a] == cats[a];
        }
      }
    }
  }

  /** Python/JavaScript truthiness of an optional number: absent and zero are false. */
  predicate Truthy(x: Option<real>)
  {
    x.Some? && x.value != 0.0
  }
}
