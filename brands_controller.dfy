/**
 * The brand handlers: list, look up, create, rename, delete with cascade,
 * and list one brand's models. Each mutating handler runs its checks in the
 * source's order, returns early on the first failure without touching the
 * store, and on success changes its table and appends one log entry.
 */
module BrandsController {
  import opened Wrappers
  import opened Text
  import opened Seqs
  import opened Store

  const BrandNotFound := "Marca no encontrada."
  const BrandNameRequired := "El nombre de la marca es requerido."

  /** `ORDER BY name ASC` on brands. */
  predicate BrandByName(a: Brand, b: Brand) {
    StrLe(a.name, b.name)
  }

  /** `ORDER BY name ASC` on models. */
  predicate ModelByName(a: Model, b: Model) {
    StrLe(a.name, b.name)
  }

  lemma BrandByNameTotal()
    ensures Total(BrandByName)
  {
    forall a: Brand, b: Brand ensures BrandByName(a, b) || BrandByName(b, a) {
      StrLeTotal(a.name, b.name);
    }
  }

  lemma ModelByNameTotal()
    ensures Total(ModelByName)
  {
    forall a: Model, b: Model ensures ModelByName(a, b) || ModelByName(b, a) {
      StrLeTotal(a.name, b.name);
    }
  }

  /** GET /brands: every brand, sorted by name. */
  function GetAllBrands(db: Database): (r: Reply<seq<Brand>>)
    reads db
    ensures r.status == Ok && r.data.Some?
    ensures SortedBy(r.data.value, BrandByName)
    ensures multiset(r.data.value) == multiset(db.brands)
  {
    BrandByNameTotal();
    Reply(Ok, "", Some(SortBy(db.brands, BrandByName)))
  }

  /** GET /brands/:id. */
  function GetBrandById(db: Database, id: int): (r: Reply<Brand>)
    reads db
    ensures r.status == NotFound <==> !HasBrand(db.brands, id)
    ensures r.status == Ok ==> r.data.Some? && r.data.value in db.brands && r.data.value.id == id
    ensures r.status == Ok || r == Reply(NotFound, BrandNotFound, None)
  {
    match IndexWhere(db.brands, BrandIdIs(id))
    case None => Reply(NotFound, BrandNotFound, None)
    case Some(k) => Reply(Ok, "", Some(db.brands[k]))
  }

  /** GET /brands/:id/models: 404 for an unknown brand, else exactly its models, sorted by name. */
  function GetBrandModels(db: Database, id: int): (r: Reply<seq<Model>>)
    reads db
    ensures r.status == NotFound <==> !HasBrand(db.brands, id)
    ensures r.status != NotFound ==> r.status == Ok && r.data.Some?
    ensures r.status == Ok ==> SortedBy(r.data.value, ModelByName)
    ensures r.status == Ok ==> forall m ::
      multiset(r.data.value)[m] == if m.brandId == id then multiset(db.models)[m] else 0
    ensures r.status == NotFound ==> r == Reply(NotFound, BrandNotFound, None)
  {
    if IndexWhere(db.brands, BrandIdIs(id)).None? then
      Reply(NotFound, BrandNotFound, None)
    else
      ModelByNameTotal();
      FilterMultiset(db.models, OfBrand(id));
      Reply(Ok, "", Some(SortBy(Filter(db.models, OfBrand(id)), ModelByName)))
  }

  /** POST /brands. */
  method CreateBrand(db: Database, actor: Claims, name: Option<string>) returns (r: Reply<Brand>)
    requires db.Valid()
    modifies db
    ensures db.Valid()
    ensures Blank(name) ==> r == Reply(BadRequest, BrandNameRequired, None) && unchanged(db)
    ensures !Blank(name) && BrandNameTaken(old(db.brands), Trim(name.value), None) ==>
      r == Reply(Conflict, "La marca ya existe.", None) && unchanged(db)
    ensures !Blank(name) && !BrandNameTaken(old(db.brands), Trim(name.value), None) ==>
      var b := Brand(old(db.nextBrandId), Trim(name.value));
      && r == Reply(Created, "Marca creada exitosamente", Some(b))
      && db.brands == old(db.brands) + [b]
      && db.nextBrandId == old(db.nextBrandId) + 1
      && db.log == old(db.log) + [LogEntry(actor.id, CreateBrandAction, "Creó marca: " + name.value, None)]
      && db.users == old(db.users) && db.models == old(db.models) && db.uploads == old(db.uploads)
      && db.nextUserId == old(db.nextUserId) && db.nextModelId == old(db.nextModelId)
  {
    if Blank(name) {
      return Reply(BadRequest, BrandNameRequired, None);
    }
    var trimmed := Trim(name.value);
    if BrandNameTaken(db.brands, trimmed, None) {
      return Reply(Conflict, "La marca ya existe.", None);
    }
    var b := Brand(db.nextBrandId, trimmed);
    db.AddBrand(b);
    db.Record(LogEntry(actor.id, CreateBrandAction, "Creó marca: " + name.value, None));
    r := Reply(Created, "Marca creada exitosamente", Some(b));
  }

  /** PUT /brands/:id: blank name 400, unknown id 404, a different brand with the name 409. */
  method UpdateBrand(db: Database, actor: Claims, id: int, name: Option<string>) returns (r: Reply<Brand>)
    requires db.Valid()
    modifies db
    ensures db.Valid()
    ensures Blank(name) ==> r == Reply(BadRequest, BrandNameRequired, None) && unchanged(db)
    ensures !Blank(name) && !HasBrand(old(db.brands), id) ==>
      r == Reply(NotFound, BrandNotFound, None) && unchanged(db)
    ensures !Blank(name) && HasBrand(old(db.brands), id) && BrandNameTaken(old(db.brands), Trim(name.value), Some(id)) ==>
      r == Reply(Conflict, "Ya existe otra marca con ese nombre.", None) && unchanged(db)
    ensures !Blank(name) && HasBrand(old(db.brands), id) && !BrandNameTaken(old(db.brands), Trim(name.value), Some(id)) ==>
      var b := Brand(id, Trim(name.value));
      && r == Reply(Ok, "Marca actualizada exitosamente", Some(b))
      && db.brands == old(db.brands)[IndexWhere(old(db.brands), BrandIdIs(id)).value := b]
      && db.log == old(db.log) + [LogEntry(actor.id, UpdateBrandAction,
                                           "Actualizó marca ID: " + IntText(id) + " a \"" + name.value + "\"", None)]
      && db.users == old(db.users) && db.models == old(db.models) && db.uploads == old(db.uploads)
      && db.nextUserId == old(db.nextUserId) && db.nextBrandId == old(db.nextBrandId)
      && db.nextModelId == old(db.nextModelId)
  {
    if Blank(name) {
      return Reply(BadRequest, BrandNameRequired, None);
    }
    var found := IndexWhere(db.brands, BrandIdIs(id));
    if found.None? {
      return Reply(NotFound, BrandNotFound, None);
    }
    var trimmed := Trim(name.value);
    if BrandNameTaken(db.brands, trimmed, Some(id)) {
      return Reply(Conflict, "Ya existe otra marca con ese nombre.", None);
    }
    var k := found.value;
    var b := Brand(id, trimmed);
    db.SetBrand(k, b);
    db.Record(LogEntry(actor.id, UpdateBrandAction,
                       "Actualizó marca ID: " + IntText(id) + " a \"" + name.value + "\"", None));
    r := Reply(Ok, "Marca actualizada exitosamente", Some(b));
  }

  /**
   * The clash check of updateBrand excludes the brand itself, so renaming a
   * brand to a case variant of its own name (`acme` to `ACME`) is never a clash.
   */
  lemma RenameToOwnCaseVariant(bs: seq<Brand>, next: int, k: int, name: string)
    requires BrandsOk(bs, next) && 0 <= k < |bs|
    requires Lower(Trim(name)) == Lower(bs[k].name)
    ensures !BrandNameTaken(bs, Trim(name), Some(bs[k].id))
  {
  }

  /** The success message of deleteBrand, which reports how many models went with the brand. */
  function DeletedMessage(count: int): string {
    "Marca eliminada exitosamente. " + IntText(count) + " modelo(s) también fueron eliminados."
  }

  /** DELETE /brands/:id: the brand and, by ON DELETE CASCADE, all its models. */
  method DeleteBrand(db: Database, actor: Claims, id: int) returns (r: Reply<()>)
    requires db.Valid()
    modifies db
    ensures db.Valid()
    ensures !HasBrand(old(db.brands), id) ==> r == Reply(NotFound, BrandNotFound, None) && unchanged(db)
    ensures HasBrand(old(db.brands), id) ==>
      var removed := |old(db.models)| - |db.models|;
      && r == Reply(Ok, DeletedMessage(removed), None)
      && db.brands == Filter(old(db.brands), OtherBrand(id))
      && db.models == Filter(old(db.models), NotOfBrand(id))
      && removed == |Filter(old(db.models), OfBrand(id))|
      && (exists b :: b in old(db.brands) && b.id == id &&
            db.log == old(db.log) + [LogEntry(actor.id, DeleteBrandAction,
              "Eliminó marca: " + b.name + " (" + IntText(removed) + " modelos eliminados)", None)])
      && db.users == old(db.users) && db.uploads == old(db.uploads)
      && db.nextUserId == old(db.nextUserId) && db.nextBrandId == old(db.nextBrandId)
      && db.nextModelId == old(db.nextModelId)
  {
    if !HasBrand(db.brands, id) {
      return Reply(NotFound, BrandNotFound, None);
    }
    var brand :| brand in db.brands && brand.id == id;
    var count := |Filter(db.models, OfBrand(id))|;
    assert forall m :: NotOfBrand(id)(m) == !OfBrand(id)(m);
    FilterSplit(db.models, OfBrand(id), NotOfBrand(id));
    db.RemoveBrand(id);
    db.Record(LogEntry(actor.id, DeleteBrandAction,
                       "Eliminó marca: " + brand.name + " (" + IntText(count) + " modelos eliminados)", None));
    r := Reply(Ok, DeletedMessage(count), None);
  }
}
