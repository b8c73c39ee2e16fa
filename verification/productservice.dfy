/**
 * The product service (service/product_service_impl.go): creation and
 * update against an existing, active category, lookup, listing and
 * deletion, each change preceded by a log snapshot.
 */
module ProductServiceImpl {
  import opened Wrappers
  import opened Entity
  import opened Model
  import opened Repository

  /** The category check of `CreateProduct` and `UpdateProduct`: a missing
      category is reported before an inactive one. */
  function CategoryCheck(c: Option<Category>): (err: Option<Error>)
    ensures err.None? <==> c.Some? && c.value.isActive
    ensures c.None? ==> err == Some(CategoryNotFound)
    ensures c.Some? && !c.value.isActive ==> err == Some(CategoryInactive)
  {
    if c.None? then Some(CategoryNotFound)
    else if !c.value.isActive then Some(CategoryInactive)
    else None
  }

  /** The response for a stored product, with its category's name. */
  function ProductView(p: Product, categories: map<string, Category>): DataProductResponse {
    DataProductResponse(p.id, p.name, p.isActive, p.categoryId, CategoryNameIn(categories, p), p.qty, p.price, p.description)
  }

  /** The log snapshot of `p` taken before a change: its activity is always
      recorded as true. */
  function ProductLogOf(p: Product, reason: string): (l: ProductLog)
    ensures l.id == LogKey(p.id, p.audit.currNo) && l.isActive
    ensures l.audit == p.audit.(logReason := Some(reason))
  {
    ProductLog(LogKey(p.id, p.audit.currNo), p.name, p.qty, p.price, p.description, p.categoryId, true,
               p.audit.(logReason := Some(reason)))
  }

  class ProductService {
    const categories: CategoryRepository
    const products: ProductRepository

    /** Both repositories sit on one database: the category table checked
        here is the one the product lookups preload names from. */
    constructor (categories: CategoryRepository, products: ProductRepository)
      requires products.categories == categories
      ensures this.categories == categories && this.products == products
      ensures this.categories == this.products.categories
    {
      this.categories := categories;
      this.products := products;
    }

    /** `CreateProduct`: against an existing, active category, an active
        product at version 1 with the requested fields. */
    method CreateProduct(req: CreateProductRequest, newId: string, now: Time) returns (err: Option<Error>)
      requires products.Valid()
      modifies products
      ensures products.Valid() && products.logs == old(products.logs)
      ensures req.categoryId !in categories.rows ==> err == Some(CategoryNotFound)
      ensures req.categoryId in categories.rows && !categories.rows[req.categoryId].isActive ==> err == Some(CategoryInactive)
      ensures err.None? <==> req.categoryId in categories.rows && categories.rows[req.categoryId].isActive && newId !in old(products.rows)
      ensures err.None? ==> products.rows == old(products.rows)[newId :=
        Product(newId, req.name, req.qty, req.price, req.description, true, req.categoryId, false, Fresh(now, "SYSTEM"))]
      ensures err.Some? ==> products.rows == old(products.rows)
    {
      var category := categories.Get(req.categoryId);
      err := CategoryCheck(category);
      if err.Some? {
        return;
      }
      var ok := products.Create(Product(newId, req.name, req.qty, req.price, req.description, true, req.categoryId, false,
                                        Fresh(now, "SYSTEM")));
      err := if ok then None else Some(InternalError);
    }

    /** `saveLog`: writes the snapshot of `p` under "<id>-<CurrNo>". */
    method SaveLog(p: Product, reason: string) returns (err: Option<Error>)
      requires products.Valid()
      modifies products
      ensures products.Valid() && products.rows == old(products.rows)
      ensures err.None? <==> ProductLogOf(p, reason).id !in old(products.logs)
      ensures products.logs == if err.None? then old(products.logs)[ProductLogOf(p, reason).id := ProductLogOf(p, reason)] else old(products.logs)
      ensures err.Some? ==> err == Some(InternalError)
    {
      var ok := products.CreateLog(ProductLogOf(p, reason));
      err := if ok then None else Some(InternalError);
    }

    /** `DeleteProduct`: a missing product is 404; the snapshot is logged
        first and a failed log leaves the product. */
    method DeleteProduct(id: string) returns (err: Option<Error>)
      requires products.Valid()
      modifies products
      ensures products.Valid()
      ensures id !in old(products.rows) ==> err == Some(NotFound)
      // an existing product is deleted exactly when its snapshot can be logged
      ensures id in old(products.rows) ==>
        var snap := ProductLogOf(old(products.rows)[id], "Data dihapus oleh " + id);
        && (err.None? <==> snap.id !in old(products.logs))
        && (err.Some? ==> err == Some(InternalError))
      ensures err.None? ==>
        var snap := ProductLogOf(old(products.rows)[id], "Data dihapus oleh " + id);
        && id in old(products.rows) && snap.id !in old(products.logs)
        && products.rows == old(products.rows) - {id} && products.logs == old(products.logs)[snap.id := snap]
      ensures err.Some? ==> products.rows == old(products.rows) && products.logs == old(products.logs)
    {
      var found := products.Get(id);
      if found.None? {
        return Some(NotFound);
      }
      err := SaveLog(found.value, "Data dihapus oleh " + id);
      if err.Some? {
        return;
      }
      products.Delete(found.value);
    }

    /** `GetProduct`: the stored product with its category's name, or 404. */
    method GetProduct(id: string) returns (r: Result<DataProductResponse, Error>)
      requires products.Valid()
      ensures r.Err? <==> id !in products.rows
      ensures r.Err? ==> r.error == NotFound
      ensures r.Ok? ==> r.value.id == id && r.value == ProductView(products.rows[id], products.categories.rows)
    {
      var found := products.Get(id);
      if found.None? {
        return Err(NotFound);
      }
      r := Ok(ProductView(found.value, products.categories.rows));
    }

    /** `ListProduct`: the page the repository returns for the defaulted
        page/limit, mapped to responses. */
    method ListProduct(req: ListRequest, list: (int, int, Filter) -> ListAnswer<Product>)
      returns (data: seq<DataProductResponse>, total: int, err: Option<Error>)
      ensures var w := Paginate(req.page, req.limit);
        var answer := list(w.limit, w.offset, req.filter);
        if answer.ListFailed? then data == [] && total == 0 && err == Some(InternalError)
        else if answer.rows == [] then data == [] && total == 0 && err == None
        else (err == None && total == answer.total && |data| == |answer.rows| &&
              forall i :: 0 <= i < |data| ==> data[i] == ProductView(answer.rows[i], products.categories.rows))
    {
      var w := Paginate(req.page, req.limit);
      var answer := list(w.limit, w.offset, req.filter);
      if answer.ListFailed? {
        return [], 0, Some(InternalError);
      }
      if answer.rows == [] {
        return [], 0, None;
      }
      var names := products.categories.rows;
      data := MapRows(answer.rows, p => ProductView(p, names));
      total, err := answer.total, None;
    }

    /** `UpdateProduct`: a missing product is 400; the category is checked
        again only when it changes; then the snapshot is logged and the
        next version, with every field from the request, replaces the row. */
    method UpdateProduct(req: UpdateProductRequest, now: Time) returns (err: Option<Error>)
      requires products.Valid()
      modifies products
      ensures products.Valid()
      ensures req.id !in old(products.rows) ==> err == Some(MissingForUpdate)
      ensures req.id in old(products.rows) && req.categoryId != old(products.rows)[req.id].categoryId ==>
        var check := CategoryCheck(if req.categoryId in categories.rows then Some(categories.rows[req.categoryId]) else None);
        check.Some? ==> err == check
      // with the category unchanged or valid, the update succeeds exactly when the snapshot can be logged
      ensures req.id in old(products.rows) &&
              (req.categoryId == old(products.rows)[req.id].categoryId ||
               (req.categoryId in categories.rows && categories.rows[req.categoryId].isActive)) ==>
        var snap := ProductLogOf(old(products.rows)[req.id], "Perubahan data oleh " + req.id);
        && (err.None? <==> snap.id !in old(products.logs))
        && (err.Some? ==> err == Some(InternalError))
      ensures err.None? ==>
        var o := old(products.rows)[req.id];
        var snap := ProductLogOf(o, "Perubahan data oleh " + req.id);
        && req.id in old(products.rows) && snap.id !in old(products.logs)
        && (req.categoryId != o.categoryId ==> req.categoryId in categories.rows && categories.rows[req.categoryId].isActive)
        && products.logs == old(products.logs)[snap.id := snap]
        && products.rows == old(products.rows)[req.id := Product(o.id, req.name, req.qty, req.price, req.description, req.isActive,
                                                                 req.categoryId, false, Bumped(o.audit, now, "SYSTEM"))]
      ensures err.Some? ==> products.rows == old(products.rows)
    {
      var found := products.Get(req.id);
      if found.None? {
        return Some(MissingForUpdate);
      }
      var o := found.value;
      if req.categoryId != o.categoryId {
        var category := categories.Get(req.categoryId);
        err := CategoryCheck(category);
        if err.Some? {
          return;
        }
      }
      err := SaveLog(o, "Perubahan data oleh " + req.id);
      if err.Some? {
        return;
      }
      products.Update(Product(o.id, req.name, req.qty, req.price, req.description, req.isActive, req.categoryId, false,
                              Bumped(o.audit, now, "SYSTEM")));
    }
  }
}
