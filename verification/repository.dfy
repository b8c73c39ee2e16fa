/**
 * The persistence layer as an abstract keyed store: one class per table,
 * each a map from primary key to row, plus the table of audit-log snapshots.
 * `Get` answers None for a missing key, `Update` replaces the whole row with
 * the given id and leaves the table alone when there is none, and the
 * database's own constraints (primary keys, `unique` columns) make the
 * writes that would break them fail. Query construction, filters and
 * connection faults are not modelled.
 */
module Repository {
  import opened Wrappers
  import opened Entity

  /** The users table and the user_logs table. Both have a unique email
      column. */
  class UserRepository {
    var rows: map<string, User>
    var logs: map<string, UserLog>

    ghost predicate Valid()
      reads this
    {
      && (forall k :: k in rows ==> rows[k].id == k)
      && (forall a, b :: a in rows && b in rows && rows[a].email == rows[b].email ==> a == b)
      && (forall k :: k in logs ==> logs[k].id == k)
      && (forall a, b :: a in logs && b in logs && logs[a].email == logs[b].email ==> a == b)
    }

    constructor ()
      ensures Valid() && rows == map[] && logs == map[]
    {
      rows := map[];
      logs := map[];
    }

    method Get(id: string) returns (r: Option<User>)
      ensures r == if id in rows then Some(rows[id]) else None
    {
      r := if id in rows then Some(rows[id]) else None;
    }

    method GetByEmail(email: string) returns (r: Option<User>)
      requires Valid()
      ensures r.None? <==> forall k :: k in rows ==> rows[k].email != email
      ensures r.Some? ==> r.value.id in rows && rows[r.value.id] == r.value && r.value.email == email
    {
      if k :| k in rows && rows[k].email == email {
        r := Some(rows[k]);
      } else {
        r := None;
      }
    }

    method Create(u: User) returns (ok: bool)
      requires Valid()
      modifies this`rows
      ensures Valid()
      ensures ok <==> u.id !in old(rows) && forall k :: k in old(rows) ==> old(rows)[k].email != u.email
      ensures rows == if ok then old(rows)[u.id := u] else old(rows)
    {
      ok := u.id !in rows && forall k :: k in rows ==> rows[k].email != u.email;
      if ok {
        rows := rows[u.id := u];
      }
    }

    method CreateLog(l: UserLog) returns (ok: bool)
      requires Valid()
      modifies this`logs
      ensures Valid()
      ensures ok <==> l.id !in old(logs) && forall k :: k in old(logs) ==> old(logs)[k].email != l.email
      ensures logs == if ok then old(logs)[l.id := l] else old(logs)
    {
      ok := l.id !in logs && forall k :: k in logs ==> logs[k].email != l.email;
      if ok {
        logs := logs[l.id := l];
      }
    }

    method Update(u: User) returns (ok: bool)
      requires Valid()
      modifies this`rows
      ensures Valid()
      ensures ok <==> forall k :: k in old(rows) && k != u.id ==> old(rows)[k].email != u.email
      ensures rows == if ok && u.id in old(rows) then old(rows)[u.id := u] else old(rows)
    {
      ok := forall k :: k in rows && k != u.id ==> rows[k].email != u.email;
      if ok && u.id in rows {
        rows := rows[u.id := u];
      }
    }

    method Delete(u: User)
      requires Valid()
      modifies this`rows
      ensures Valid()
      ensures rows == old(rows) - {u.id}
    {
      rows := rows - {u.id};
    }
  }

  /** The customers table (unique username and unique email) and the
      customer_logs table. */
  class CustomerRepository {
    var rows: map<string, Customer>
    var logs: map<string, CustomerLog>

    ghost predicate Valid()
      reads this
    {
      && (forall k :: k in rows ==> rows[k].id == k)
      && (forall a, b :: a in rows && b in rows && rows[a].email == rows[b].email ==> a == b)
      && (forall a, b :: a in rows && b in rows && rows[a].username == rows[b].username ==> a == b)
      && (forall k :: k in logs ==> logs[k].id == k)
    }

    constructor ()
      ensures Valid() && rows == map[] && logs == map[]
    {
      rows := map[];
      logs := map[];
    }

    method Get(id: string) returns (r: Option<Customer>)
      ensures r == if id in rows then Some(rows[id]) else None
    {
      r := if id in rows then Some(rows[id]) else None;
    }

    method GetByEmail(email: string) returns (r: Option<Customer>)
      requires Valid()
      ensures r.None? <==> forall k :: k in rows ==> rows[k].email != email
      ensures r.Some? ==> r.value.id in rows && rows[r.value.id] == r.value && r.value.email == email
    {
      if k :| k in rows && rows[k].email == email {
        r := Some(rows[k]);
      } else {
        r := None;
      }
    }

    /** `WHERE username = ? OR email = ?`: some row matching either. */
    method GetByUsernameOrEmail(username: string, email: string) returns (r: Option<Customer>)
      requires Valid()
      ensures r.None? <==> forall k :: k in rows ==> rows[k].username != username && rows[k].email != email
      ensures r.Some? ==> r.value.id in rows && rows[r.value.id] == r.value
      ensures r.Some? ==> r.value.username == username || r.value.email == email
    {
      if k :| k in rows && (rows[k].username == username || rows[k].email == email) {
        r := Some(rows[k]);
      } else {
        r := None;
      }
    }

    method Create(c: Customer) returns (ok: bool)
      requires Valid()
      modifies this`rows
      ensures Valid()
      ensures ok <==> (c.id !in old(rows) &&
        forall k :: k in old(rows) ==> old(rows)[k].email != c.email && old(rows)[k].username != c.username)
      ensures rows == if ok then old(rows)[c.id := c] else old(rows)
    {
      ok := c.id !in rows && forall k :: k in rows ==> rows[k].email != c.email && rows[k].username != c.username;
      if ok {
        rows := rows[c.id := c];
      }
    }

    method CreateLog(l: CustomerLog) returns (ok: bool)
      requires Valid()
      modifies this`logs
      ensures Valid()
      ensures ok <==> l.id !in old(logs)
      ensures logs == if ok then old(logs)[l.id := l] else old(logs)
    {
      ok := l.id !in logs;
      if ok {
        logs := logs[l.id := l];
      }
    }

    method Update(c: Customer) returns (ok: bool)
      requires Valid()
      modifies this`rows
      ensures Valid()
      ensures ok <==> (forall k :: k in old(rows) && k != c.id ==>
        old(rows)[k].email != c.email && old(rows)[k].username != c.username)
      ensures rows == if ok && c.id in old(rows) then old(rows)[c.id := c] else old(rows)
    {
      ok := forall k :: k in rows && k != c.id ==> rows[k].email != c.email && rows[k].username != c.username;
      if ok && c.id in rows {
        rows := rows[c.id := c];
      }
    }

    method Delete(c: Customer)
      requires Valid()
      modifies this`rows
      ensures Valid()
      ensures rows == old(rows) - {c.id}
    {
      rows := rows - {c.id};
    }
  }

  /** The categories table and the category_logs table. */
  class CategoryRepository {
    var rows: map<string, Category>
    var logs: map<string, CategoryLog>

    ghost predicate Valid()
      reads this
    {
      && (forall k :: k in rows ==> rows[k].id == k)
      && (forall k :: k in logs ==> logs[k].id == k)
    }

    constructor ()
      ensures Valid() && rows == map[] && logs == map[]
    {
      rows := map[];
      logs := map[];
    }

    method Get(id: string) returns (r: Option<Category>)
      ensures r == if id in rows then Some(rows[id]) else None
    {
      r := if id in rows then Some(rows[id]) else None;
    }

    method Create(c: Category) returns (ok: bool)
      requires Valid()
      modifies this`rows
      ensures Valid()
      ensures ok <==> c.id !in old(rows)
      ensures rows == if ok then old(rows)[c.id := c] else old(rows)
    {
      ok := c.id !in rows;
      if ok {
        rows := rows[c.id := c];
      }
    }

    method CreateLog(l: CategoryLog) returns (ok: bool)
      requires Valid()
      modifies this`logs
      ensures Valid()
      ensures ok <==> l.id !in old(logs)
      ensures logs == if ok then old(logs)[l.id := l] else old(logs)
    {
      ok := l.id !in logs;
      if ok {
        logs := logs[l.id := l];
      }
    }

    method Update(c: Category)
      requires Valid()
      modifies this`rows
      ensures Valid()
      ensures rows == if c.id in old(rows) then old(rows)[c.id := c] else old(rows)
    {
      if c.id in rows {
        rows := rows[c.id := c];
      }
    }

    method Delete(c: Category)
      requires Valid()
      modifies this`rows
      ensures Valid()
      ensures rows == old(rows) - {c.id}
    {
      rows := rows - {c.id};
    }
  }

  /** The products table and the product_logs table. The category of a
      product is read from the categories table (gorm's `Preload("Category")`). */
  class ProductRepository {
    var rows: map<string, Product>
    var logs: map<string, ProductLog>
    const categories: CategoryRepository

    ghost predicate Valid()
      reads this
    {
      && (forall k :: k in rows ==> rows[k].id == k)
      && (forall k :: k in logs ==> logs[k].id == k)
    }

    constructor (categories: CategoryRepository)
      ensures Valid() && rows == map[] && logs == map[] && this.categories == categories
    {
      rows := map[];
      logs := map[];
      this.categories := categories;
    }

    method Get(id: string) returns (r: Option<Product>)
      ensures r == if id in rows then Some(rows[id]) else None
    {
      r := if id in rows then Some(rows[id]) else None;
    }

    /** The name of the preloaded category; the zero value when the
        category row is gone. */
    method CategoryName(p: Product) returns (name: string)
      ensures name == CategoryNameIn(categories.rows, p)
    {
      name := if p.categoryId in categories.rows then categories.rows[p.categoryId].name else "";
    }

    method Create(p: Product) returns (ok: bool)
      requires Valid()
      modifies this`rows
      ensures Valid()
      ensures ok <==> p.id !in old(rows)
      ensures rows == if ok then old(rows)[p.id := p] else old(rows)
    {
      ok := p.id !in rows;
      if ok {
        rows := rows[p.id := p];
      }
    }

    method CreateLog(l: ProductLog) returns (ok: bool)
      requires Valid()
      modifies this`logs
      ensures Valid()
      ensures ok <==> l.id !in old(logs)
      ensures logs == if ok then old(logs)[l.id := l] else old(logs)
    {
      ok := l.id !in logs;
      if ok {
        logs := logs[l.id := l];
      }
    }

    method Update(p: Product)
      requires Valid()
      modifies this`rows
      ensures Valid()
      ensures rows == if p.id in old(rows) then old(rows)[p.id := p] else old(rows)
    {
      if p.id in rows {
        rows := rows[p.id := p];
      }
    }

    method Delete(p: Product)
      requires Valid()
      modifies this`rows
      ensures Valid()
      ensures rows == old(rows) - {p.id}
    {
      rows := rows - {p.id};
    }
  }

  /** The name of product `p`'s category in the categories table `cats`. */
  function CategoryNameIn(cats: map<string, Category>, p: Product): string {
    if p.categoryId in cats then cats[p.categoryId].name else ""
  }

  /** The carts table, one row per customer, looked up by customer id. */
  class CartRepository {
    var carts: map<string, Cart>

    ghost predicate Valid()
      reads this
    {
      forall k :: k in carts ==> carts[k].customerId == k
    }

    constructor ()
      ensures Valid() && carts == map[]
    {
      carts := map[];
    }

    /** `WHERE customer_id = ?`. */
    method Get(customerId: string) returns (r: Option<Cart>)
      ensures r == if customerId in carts then Some(carts[customerId]) else None
    {
      r := if customerId in carts then Some(carts[customerId]) else None;
    }

    /** Called only after `Get` found no cart for the customer. */
    method Create(c: Cart)
      requires Valid()
      requires c.customerId !in carts
      modifies this`carts
      ensures Valid()
      ensures carts == old(carts)[c.customerId := c]
    {
      carts := carts[c.customerId := c];
    }

    /** `WHERE id = ?`: replaces the cart with this id. */
    method Update(c: Cart)
      requires Valid()
      modifies this`carts
      ensures Valid()
      ensures carts == if c.customerId in old(carts) && old(carts)[c.customerId].id == c.id
                       then old(carts)[c.customerId := c] else old(carts)
    {
      if c.customerId in carts && carts[c.customerId].id == c.id {
        carts := carts[c.customerId := c];
      }
    }
  }
}
