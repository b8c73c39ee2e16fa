/**
 * The category service (service/category_service_impl.go): creation,
 * lookup, listing (active categories unless the caller asks otherwise),
 * update and deletion, each change preceded by a log snapshot.
 */
module CategoryServiceImpl {
  import opened Wrappers
  import opened Entity
  import opened Model
  import opened Repository

  function CategoryView(c: Category): DataCategoryResponse {
    DataCategoryResponse(c.id, c.name, c.isActive)
  }

  /** The log snapshot of `c` taken before a change, with its reason. */
  function CategoryLogOf(c: Category, reason: string): (l: CategoryLog)
    ensures l.id == LogKey(c.id, c.audit.currNo)
    ensures l.audit == c.audit.(logReason := Some(reason))
  {
    CategoryLog(LogKey(c.id, c.audit.currNo), c.name, c.isActive, c.audit.(logReason := Some(reason)))
  }

  /** `if req.Filter["is_active"] == nil { req.Filter["is_active"] = true }`:
      a filter that does not mention activity (or mentions it as null) asks
      for active categories; any other filter is left as it is. */
  function WithActiveDefault(f: Filter): (g: Filter)
    ensures "is_active" in g && g["is_active"] != Null
    ensures ("is_active" !in f || f["is_active"] == Null) ==> g["is_active"] == Bool(true)
    ensures ("is_active" in f && f["is_active"] != Null) ==> g == f
    ensures forall k :: k != "is_active" ==> (k in g <==> k in f) && (k in f ==> g[k] == f[k])
  {
    if "is_active" !in f || f["is_active"] == Null then f["is_active" := Bool(true)] else f
  }

  class CategoryService {
    const repo: CategoryRepository

    constructor (repo: CategoryRepository)
      ensures this.repo == repo
    {
      this.repo := repo;
    }

    /** `CreateCategory`: an active category at version 1, created by the
        system. */
    method CreateCategory(req: CreateCategoryRequest, newId: string, now: Time) returns (err: Option<Error>)
      requires repo.Valid()
      modifies repo
      ensures repo.Valid() && repo.logs == old(repo.logs)
      ensures err.None? <==> newId !in old(repo.rows)
      ensures err.None? ==> repo.rows == old(repo.rows)[newId := Category(newId, req.name, true, Fresh(now, "SYSTEM"))]
      ensures err.Some? ==> err == Some(InternalError) && repo.rows == old(repo.rows)
    {
      var ok := repo.Create(Category(newId, req.name, true, Fresh(now, "SYSTEM")));
      err := if ok then None else Some(InternalError);
    }

    /** `saveLog`: writes the snapshot of `c` under "<id>-<CurrNo>". */
    method SaveLog(c: Category, reason: string) returns (err: Option<Error>)
      requires repo.Valid()
      modifies repo
      ensures repo.Valid() && repo.rows == old(repo.rows)
      ensures err.None? <==> CategoryLogOf(c, reason).id !in old(repo.logs)
      ensures repo.logs == if err.None? then old(repo.logs)[CategoryLogOf(c, reason).id := CategoryLogOf(c, reason)] else old(repo.logs)
      ensures err.Some? ==> err == Some(InternalError)
    {
      var ok := repo.CreateLog(CategoryLogOf(c, reason));
      err := if ok then None else Some(InternalError);
    }

    /** `DeleteCategory`: a missing category is 404; the snapshot is logged
        first and a failed log leaves the category. */
    method DeleteCategory(id: string) returns (err: Option<Error>)
      requires repo.Valid()
      modifies repo
      ensures repo.Valid()
      ensures id !in old(repo.rows) ==> err == Some(NotFound)
      // an existing category is deleted exactly when its snapshot can be logged
      ensures id in old(repo.rows) ==>
        var snap := CategoryLogOf(old(repo.rows)[id], "Data dihapus oleh " + id);
        && (err.None? <==> snap.id !in old(repo.logs))
        && (err.Some? ==> err == Some(InternalError))
      ensures err.None? ==>
        var snap := CategoryLogOf(old(repo.rows)[id], "Data dihapus oleh " + id);
        && id in old(repo.rows) && snap.id !in old(repo.logs)
        && repo.rows == old(repo.rows) - {id} && repo.logs == old(repo.logs)[snap.id := snap]
      ensures err.Some? ==> repo.rows == old(repo.rows) && repo.logs == old(repo.logs)
    {
      var found := repo.Get(id);
      if found.None? {
        return Some(NotFound);
      }
      err := SaveLog(found.value, "Data dihapus oleh " + id);
      if err.Some? {
        return;
      }
      repo.Delete(found.value);
    }

    /** `GetCategory`: the stored category, or 404 "Data not found.". */
    method GetCategory(id: string) returns (r: Result<DataCategoryResponse, Error>)
      requires repo.Valid()
      ensures r.Err? <==> id !in repo.rows
      ensures r.Err? ==> r.error == NotFound
      ensures r.Ok? ==> r.value.id == id && r.value == CategoryView(repo.rows[id])
    {
      var found := repo.Get(id);
      if found.None? {
        return Err(NotFound);
      }
      r := Ok(CategoryView(found.value));
    }

    /** `ListCategory`: the page the repository returns for the defaulted
        page/limit and the defaulted filter, mapped to responses. */
    method ListCategory(req: ListRequest, list: (int, int, Filter) -> ListAnswer<Category>)
      returns (data: seq<DataCategoryResponse>, total: int, err: Option<Error>)
      ensures var w := Paginate(req.page, req.limit);
        var answer := list(w.limit, w.offset, WithActiveDefault(req.filter));
        if answer.ListFailed? then data == [] && total == 0 && err == Some(InternalError)
        else if answer.rows == [] then data == [] && total == 0 && err == None
        else (err == None && total == answer.total && |data| == |answer.rows| &&
              forall i :: 0 <= i < |data| ==> data[i] == CategoryView(answer.rows[i]))
    {
      var w := Paginate(req.page, req.limit);
      var answer := list(w.limit, w.offset, WithActiveDefault(req.filter));
      if answer.ListFailed? {
        return [], 0, Some(InternalError);
      }
      if answer.rows == [] {
        return [], 0, None;
      }
      data := MapRows(answer.rows, CategoryView);
      total, err := answer.total, None;
    }

    /** `UpdateCategory`: a missing category is 400; otherwise the snapshot
        is logged and the next version, with the requested name and
        activity, replaces the row. */
    method UpdateCategory(req: UpdateCategoryRequest, now: Time) returns (err: Option<Error>)
      requires repo.Valid()
      modifies repo
      ensures repo.Valid()
      ensures req.id !in old(repo.rows) ==> err == Some(MissingForUpdate)
      // an existing category is updated exactly when its snapshot can be logged
      ensures req.id in old(repo.rows) ==>
        var snap := CategoryLogOf(old(repo.rows)[req.id], "Perubahan data oleh " + req.id);
        && (err.None? <==> snap.id !in old(repo.logs))
        && (err.Some? ==> err == Some(InternalError))
      ensures err.None? ==>
        var o := old(repo.rows)[req.id];
        var snap := CategoryLogOf(o, "Perubahan data oleh " + req.id);
        && req.id in old(repo.rows) && snap.id !in old(repo.logs)
        && repo.logs == old(repo.logs)[snap.id := snap]
        && repo.rows == old(repo.rows)[req.id := Category(o.id, req.name, req.isActive, Bumped(o.audit, now, req.id))]
      ensures err.Some? ==> repo.rows == old(repo.rows)
    {
      var found := repo.Get(req.id);
      if found.None? {
        return Some(MissingForUpdate);
      }
      var o := found.value;
      err := SaveLog(o, "Perubahan data oleh " + req.id);
      if err.Some? {
        return;
      }
      repo.Update(Category(o.id, req.name, req.isActive, Bumped(o.audit, now, req.id)));
    }
  }
}
