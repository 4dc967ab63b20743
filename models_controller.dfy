/**
 * The model handlers: the joined listing and search, lookup by id, create,
 * partial update and delete, and the `possible_passwords` normaliser that
 * create and update share. Request bodies arrive already parsed, so a field
 * is `None` where the client left it out (`undefined`).
 */
module ModelsController {
  import opened Wrappers
  import opened Text
  import opened Seqs
  import opened Json
  import opened Store

  const ModelNotFound := "Modelo no encontrado."
  const BrandNotFound := "Marca no encontrada."

  /** A row of the `models m INNER JOIN brands b` queries: the model and `b.name AS brand_name`. */
  datatype ModelRow = ModelRow(model: Model, brandName: string)

  /**
   * The fields of the request body. `brandId`, `imageUrl` and `resetInstructions`
   * are `Some(None)` for an explicit `null`; `possiblePasswords` may be any JSON value.
   */
  datatype ModelFields = ModelFields(
    brandId: Option<Option<int>>,
    name: Option<string>,
    imageUrl: Option<Option<string>>,
    resetInstructions: Option<Option<string>>,
    possiblePasswords: Option<Json>)

  /** `INNER JOIN brands b ON m.brand_id = b.id`, in the order of the models table. */
  function JoinBrands(ms: seq<Model>, bs: seq<Brand>): (r: seq<ModelRow>)
    ensures |r| <= |ms|
    ensures forall row :: row in r ==> row.model in ms && Brand(row.model.brandId, row.brandName) in bs
  {
    if ms == [] then []
    else
      var rest := JoinBrands(ms[1..], bs);
      match IndexWhere(bs, BrandIdIs(ms[0].brandId))
      case None => rest
      case Some(k) =>
        assert bs[k] == Brand(ms[0].brandId, bs[k].name);
        [ModelRow(ms[0], bs[k].name)] + rest
  }

  /** When every model has its brand, the join keeps every model, in order, with its brand's name. */
  lemma {:induction false} JoinKeepsEveryModel(ms: seq<Model>, bs: seq<Brand>)
    requires forall i :: 0 <= i < |ms| ==> HasBrand(bs, ms[i].brandId)
    ensures |JoinBrands(ms, bs)| == |ms|
    ensures forall i :: 0 <= i < |ms| ==> JoinBrands(ms, bs)[i].model == ms[i]
  {
    if ms != [] {
      JoinKeepsEveryModel(ms[1..], bs);
      var b :| b in bs && b.id == ms[0].brandId;
      assert BrandIdIs(ms[0].brandId)(b);
      var found := IndexWhere(bs, BrandIdIs(ms[0].brandId));
      assert found.Some?;
    }
  }

  /** `ORDER BY b.name ASC, m.name ASC`. */
  predicate RowLe(a: ModelRow, b: ModelRow) {
    if a.brandName == b.brandName then StrLe(a.model.name, b.model.name)
    else StrLe(a.brandName, b.brandName)
  }

  lemma RowLeTotal()
    ensures Total(RowLe)
  {
    forall a: ModelRow, b: ModelRow ensures RowLe(a, b) || RowLe(b, a) {
      StrLeTotal(a.brandName, b.brandName);
      StrLeTotal(a.model.name, b.model.name);
    }
  }

  /** GET /models: every model with its brand name, ordered by brand name, then model name. */
  function GetAllModels(db: Database): (r: Reply<seq<ModelRow>>)
    reads db
    ensures r.status == Ok && r.data.Some?
    ensures SortedBy(r.data.value, RowLe)
    ensures multiset(r.data.value) == multiset(JoinBrands(db.models, db.brands))
  {
    RowLeTotal();
    Reply(Ok, "", Some(SortBy(JoinBrands(db.models, db.brands), RowLe)))
  }

  /** A stored store keeps every model in the listing. */
  lemma GetAllModelsListsEveryModel(db: Database)
    requires db.Valid()
    ensures |GetAllModels(db).data.value| == |db.models|
    ensures forall m :: m in db.models <==> exists row :: row in GetAllModels(db).data.value && row.model == m
  {
    ListingKeepsEveryModel(db.models, db.brands, GetAllModels(db).data.value);
  }

  /** Any reordering of the join of a database's models lists each model exactly as often as the table holds it. */
  lemma ListingKeepsEveryModel(ms: seq<Model>, bs: seq<Brand>, r: seq<ModelRow>)
    requires forall i :: 0 <= i < |ms| ==> HasBrand(bs, ms[i].brandId)
    requires multiset(r) == multiset(JoinBrands(ms, bs))
    ensures |r| == |ms|
    ensures forall m :: m in ms <==> exists row :: row in r && row.model == m
  {
    var j := JoinBrands(ms, bs);
    JoinKeepsEveryModel(ms, bs);
    assert |r| == |multiset(r)| == |multiset(j)| == |j|;
    SameMembers(r, j);
    forall m ensures m in ms <==> exists row :: row in r && row.model == m {
      if m in ms {
        var i :| 0 <= i < |ms| && ms[i] == m;
        assert j[i] in r;
      }
      if row :| row in r && row.model == m {
        assert row in j;
      }
    }
  }

  /** `LOWER(m.name) LIKE LOWER('%' || term || '%') OR LOWER(b.name) LIKE ...`, with the term taken literally. */
  predicate Matches(row: ModelRow, term: string) {
    Contains(Lower(row.model.name), Lower(term)) || Contains(Lower(row.brandName), Lower(term))
  }

  function MatchesTerm(term: string): ModelRow -> bool {
    (row: ModelRow) => Matches(row, term)
  }

  /** The rows that match a term, ordered by (brand name, model name). */
  function SortedHits(rows: seq<ModelRow>, term: string): (r: seq<ModelRow>)
    ensures SortedBy(r, RowLe)
    ensures forall row :: row in r <==> row in rows && Matches(row, term)
    ensures forall row :: multiset(r)[row] == if Matches(row, term) then multiset(rows)[row] else 0
  {
    RowLeTotal();
    var hits := Filter(rows, MatchesTerm(term));
    var sorted := SortBy(hits, RowLe);
    FilterMultiset(rows, MatchesTerm(term));
    assert forall row :: row in sorted <==> row in hits by {
      forall row ensures row in sorted <==> row in hits {
        assert row in sorted <==> row in multiset(sorted);
        assert row in hits <==> row in multiset(hits);
      }
    }
    sorted
  }

  /** GET /models/search?q=: 400 for a blank query, else the joined rows that match `q.trim()`, ordered. */
  function SearchModels(db: Database, q: Option<string>): (r: Reply<seq<ModelRow>>)
    reads db
    ensures Blank(q) <==> r.status == BadRequest
    ensures Blank(q) ==> r == Reply(BadRequest, "Parámetro de búsqueda requerido.", None)
    ensures !Blank(q) ==> r.status == Ok && r.data.Some? && SortedBy(r.data.value, RowLe)
    ensures !Blank(q) ==> forall row :: row in r.data.value <==>
      row in JoinBrands(db.models, db.brands) && Matches(row, Trim(q.value))
    ensures !Blank(q) ==> forall row ::
      multiset(r.data.value)[row] == if Matches(row, Trim(q.value)) then multiset(JoinBrands(db.models, db.brands))[row] else 0
  {
    if Blank(q) then Reply(BadRequest, "Parámetro de búsqueda requerido.", None)
    else Reply(Ok, "", Some(SortedHits(JoinBrands(db.models, db.brands), Trim(q.value))))
  }

  /** GET /models/:id: the joined row, or 404. */
  function GetModelById(db: Database, id: int): (r: Reply<ModelRow>)
    reads db
    ensures r.status == Ok || r == Reply(NotFound, ModelNotFound, None)
    ensures r.status == Ok ==>
      r.data.Some? && r.data.value in JoinBrands(db.models, db.brands) && r.data.value.model.id == id
    ensures r.status == NotFound <==> forall row :: row in JoinBrands(db.models, db.brands) ==> row.model.id != id
  {
    var rows := JoinBrands(db.models, db.brands);
    match IndexWhere(rows, (row: ModelRow) => row.model.id == id)
    case None => Reply(NotFound, ModelNotFound, None)
    case Some(k) => Reply(Ok, "", Some(rows[k]))
  }

  /** In a valid store, GET /models/:id answers 404 exactly when no model has the id. */
  lemma GetModelByIdNotFound(db: Database, id: int)
    requires db.Valid()
    ensures GetModelById(db, id).status == NotFound <==> !HasModel(db.models, id)
  {
    JoinKeepsEveryModel(db.models, db.brands);
    var rows := JoinBrands(db.models, db.brands);
    if m :| m in db.models && m.id == id {
      var i :| 0 <= i < |db.models| && db.models[i] == m;
      assert rows[i] in rows;
    }
  }

  /**
   * The `possible_passwords` normaliser of createModel and updateModel: a
   * string that parses is re-serialised, a string that does not is kept
   * verbatim, an array becomes its JSON text, anything else passes through.
   */
  function NormalisePasswords(v: Json, c: Codec): (r: Json)
    ensures v.JString? && c.parse(v.str).Some? ==> r == JString(c.serialize(c.parse(v.str).value))
    ensures v.JString? && c.parse(v.str).None? ==> r == v
    ensures v.JArray? ==> r == JString(c.serialize(v))
    ensures !v.JString? && !v.JArray? ==> r == v
  {
    match v
    case JString(s) =>
      (match c.parse(s)
       case Some(j) => JString(c.serialize(j))
       case None => v)
    case JArray(_) => JString(c.serialize(v))
    case _ => v
  }

  /** Normalising twice gives what normalising once gave. */
  lemma NormaliseIdempotent(v: Json, c: Codec)
    requires Lawful(c)
    ensures NormalisePasswords(NormalisePasswords(v, c), c) == NormalisePasswords(v, c)
  {
    match v
    case JString(s) =>
      match c.parse(s) {
        case Some(j) => assert c.parse(c.serialize(j)) == Some(j);
        case None =>
      }
    case JArray(_) => assert c.parse(c.serialize(v)) == Some(v);
    case _ =>
  }

  /** A list sent as an array and the same list sent as its JSON text are stored alike. */
  lemma NormaliseArrayOrText(v: Json, c: Codec)
    requires Lawful(c) && v.JArray?
    ensures NormalisePasswords(JString(c.serialize(v)), c) == NormalisePasswords(v, c)
  {
    assert c.parse(c.serialize(v)) == Some(v);
  }

  /** How node-postgres stores a JSON value in a text column: `null` as NULL, objects as their JSON text. */
  function ColumnText(v: Json, c: Codec): (r: Option<string>)
    ensures r.None? <==> v.JNull?
    ensures v.JString? ==> r == Some(v.str)
  {
    match v
    case JNull => None
    case JBool(b) => Some(if b then "true" else "false")
    case JNumber(n) => Some(IntText(n))
    case JString(s) => Some(s)
    case _ => Some(c.serialize(v))
  }

  /** `image_url || null`: an absent, null or empty URL is stored as NULL. */
  function ImageColumn(v: Option<Option<string>>): (r: Option<string>)
    ensures r.None? <==> v.None? || v.value.None? || v.value.value == ""
    ensures r.Some? ==> v == Some(r)
  {
    if v.Some? && v.value.Some? && v.value.value != "" then v.value else None
  }

  /** `passwordsValue || '[]'` after normalising: a falsy or absent value is stored as the empty list. */
  function CreatedPasswords(v: Option<Json>, c: Codec): (r: Option<string>)
    ensures r.Some?
    ensures v.None? ==> r == Some("[]")
    ensures v.Some? && !Truthy(NormalisePasswords(v.value, c)) ==> r == Some("[]")
    ensures v.Some? && Truthy(NormalisePasswords(v.value, c)) ==> r == ColumnText(NormalisePasswords(v.value, c), c)
  {
    if v.Some? && Truthy(NormalisePasswords(v.value, c)) then ColumnText(NormalisePasswords(v.value, c), c)
    else Some("[]")
  }

  /** `!brand_id || !name`: an absent, null or zero brand id, or an absent or empty name. */
  predicate MissingKeyFields(f: ModelFields) {
    f.brandId.None? || f.brandId.value.None? || f.brandId.value.value == 0 || f.name.None? || f.name.value == ""
  }

  /** `reset_instructions || ''`: an absent, null or empty text is stored as '', any other as itself. */
  function CreatedInstructions(v: Option<Option<string>>): (r: Option<string>)
    ensures r.Some?
    ensures r == Some("") <==> v.None? || v.value.None? || v.value.value == ""
    ensures r.value != "" ==> v == Some(r)
  {
    if v.None? || v.value.None? then Some("") else v.value
  }

  /** The row createModel inserts. */
  function NewModel(id: int, f: ModelFields, c: Codec): (m: Model)
    requires !MissingKeyFields(f)
    ensures m.id == id && m.brandId == f.brandId.value.value && m.name == Trim(f.name.value)
    ensures m.imageUrl == ImageColumn(f.imageUrl)
    ensures m.resetInstructions == CreatedInstructions(f.resetInstructions)
    ensures m.possiblePasswords == CreatedPasswords(f.possiblePasswords, c)
  {
    Model(id, f.brandId.value.value, Trim(f.name.value), ImageColumn(f.imageUrl),
          CreatedInstructions(f.resetInstructions), CreatedPasswords(f.possiblePasswords, c))
  }

  /** POST /models. */
  method CreateModel(db: Database, actor: Claims, f: ModelFields, c: Codec) returns (r: Reply<Model>)
    requires db.Valid()
    modifies db
    ensures db.Valid()
    ensures MissingKeyFields(f) ==> r == Reply(BadRequest, "brand_id y name son requeridos.", None) && unchanged(db)
    ensures !MissingKeyFields(f) && !HasBrand(old(db.brands), f.brandId.value.value) ==>
      r == Reply(NotFound, BrandNotFound, None) && unchanged(db)
    ensures (&& !MissingKeyFields(f) && HasBrand(old(db.brands), f.brandId.value.value)
             && ModelNameTaken(old(db.models), f.brandId.value.value, Trim(f.name.value), None)) ==>
      r == Reply(Conflict, "Ya existe un modelo con ese nombre para esta marca.", None) && unchanged(db)
    ensures (&& !MissingKeyFields(f) && HasBrand(old(db.brands), f.brandId.value.value)
             && !ModelNameTaken(old(db.models), f.brandId.value.value, Trim(f.name.value), None)) ==>
      var m := NewModel(old(db.nextModelId), f, c);
      && r == Reply(Created, "Modelo creado exitosamente", Some(m))
      && db.models == old(db.models) + [m] && db.nextModelId == old(db.nextModelId) + 1
      && db.log == old(db.log) + [LogEntry(actor.id, CreateModelAction,
           "Creó modelo: " + f.name.value + " (Brand ID: " + IntText(f.brandId.value.value) + ")", None)]
      && db.users == old(db.users) && db.brands == old(db.brands) && db.uploads == old(db.uploads)
      && db.nextUserId == old(db.nextUserId) && db.nextBrandId == old(db.nextBrandId)
  {
    if MissingKeyFields(f) {
      return Reply(BadRequest, "brand_id y name son requeridos.", None);
    }
    if !HasBrand(db.brands, f.brandId.value.value) {
      return Reply(NotFound, BrandNotFound, None);
    }
    if ModelNameTaken(db.models, f.brandId.value.value, Trim(f.name.value), None) {
      return Reply(Conflict, "Ya existe un modelo con ese nombre para esta marca.", None);
    }
    var m := NewModel(db.nextModelId, f, c);
    db.AddModel(m);
    db.Record(LogEntry(actor.id, CreateModelAction,
                       "Creó modelo: " + f.name.value + " (Brand ID: " + IntText(f.brandId.value.value) + ")", None));
    r := Reply(Created, "Modelo creado exitosamente", Some(m));
  }

  /** Creating a model keeps "no two models of a brand share a name ignoring case". */
  lemma CreateModelKeepsNamesUnique(ms: seq<Model>, m: Model)
    requires ModelNamesUnique(ms) && !ModelNameTaken(ms, m.brandId, m.name, None)
    ensures ModelNamesUnique(ms + [m])
  {
    var nms := ms + [m];
    forall i, j | 0 <= i < j < |nms|
      ensures !(nms[i].brandId == nms[j].brandId && Lower(nms[i].name) == Lower(nms[j].name))
    {
      if j == |ms| {
        assert Some(ms[i].id) != None;
      }
    }
  }

  /**
   * The row updateModel writes: every supplied field replaces the stored one,
   * except a blank name, which is ignored; an empty image URL becomes NULL, and
   * so does an explicit `null` for the reset instructions. An explicit `null`
   * brand never gets here (BrandMissing answers 404 first), so it keeps the
   * stored brand.
   */
  function Patched(m: Model, f: ModelFields, c: Codec): (r: Model)
    ensures r.id == m.id
    ensures r.brandId == if f.brandId.Some? && f.brandId.value.Some? then f.brandId.value.value else m.brandId
    ensures r.name == if Blank(f.name) then m.name else Trim(f.name.value)
    ensures r.imageUrl == if f.imageUrl.Some? then ImageColumn(f.imageUrl) else m.imageUrl
    ensures r.resetInstructions == if f.resetInstructions.Some? then f.resetInstructions.value else m.resetInstructions
    ensures r.possiblePasswords ==
      if f.possiblePasswords.Some? then ColumnText(NormalisePasswords(f.possiblePasswords.value, c), c)
      else m.possiblePasswords
  {
    Model(m.id,
          if f.brandId.Some? && f.brandId.value.Some? then f.brandId.value.value else m.brandId,
          if Blank(f.name) then m.name else Trim(f.name.value),
          if f.imageUrl.Some? then ImageColumn(f.imageUrl) else m.imageUrl,
          f.resetInstructions.GetOr(m.resetInstructions),
          if f.possiblePasswords.Some? then ColumnText(NormalisePasswords(f.possiblePasswords.value, c), c)
          else m.possiblePasswords)
  }

  /** An update with no fields supplied writes the stored row back unchanged. */
  lemma PatchedEmptyKeepsRow(m: Model, c: Codec)
    ensures Patched(m, ModelFields(None, None, None, None, None), c) == m
  {
  }

  /**
   * updateModel's duplicate check as written: it runs only when a non-blank
   * name is supplied, and it looks in `brand_id || existingModel.rows[0].brand_id`.
   * The lookup selected only `id`, so without a (non-zero) `brand_id` the brand
   * is `undefined`, SQL compares with NULL, and nothing matches.
   */
  predicate AsWrittenClash(ms: seq<Model>, id: int, f: ModelFields) {
    && !Blank(f.name)
    && f.brandId.Some? && f.brandId.value.Some? && f.brandId.value.value != 0
    && ModelNameTaken(ms, f.brandId.value.value, Trim(f.name.value), Some(id))
  }

  /** The check the handler evidently intends: the resulting (brand, name) pair, whenever either changes. */
  predicate IntendedClash(ms: seq<Model>, m: Model, f: ModelFields, c: Codec) {
    var p := Patched(m, f, c);
    (f.brandId.Some? || !Blank(f.name)) && ModelNameTaken(ms, p.brandId, p.name, Some(m.id))
  }

  /**
   * The `SET` list of updateModel, built one supplied field at a time. The
   * handler runs its duplicate check before it, which changes nothing, since
   * building the list touches no state.
   */
  method PendingRow(m: Model, f: ModelFields, c: Codec) returns (row: Model)
    ensures row == Patched(m, f, c)
  {
    row := m;
    if f.brandId.Some? && f.brandId.value.Some? {
      row := row.(brandId := f.brandId.value.value);
    }
    if !Blank(f.name) {
      row := row.(name := Trim(f.name.value));
    }
    if f.imageUrl.Some? {
      row := row.(imageUrl := ImageColumn(f.imageUrl));
    }
    if f.resetInstructions.Some? {
      row := row.(resetInstructions := f.resetInstructions.value);
    }
    if f.possiblePasswords.Some? {
      row := row.(possiblePasswords := ColumnText(NormalisePasswords(f.possiblePasswords.value, c), c));
    }
  }

  /**
   * updateModel's brand check: a supplied `brand_id` that `SELECT id FROM brands
   * WHERE id = $1` does not find; for an explicit `null` the comparison with
   * NULL finds nothing.
   */
  predicate BrandMissing(bs: seq<Brand>, f: ModelFields) {
    f.brandId.Some? && (f.brandId.value.None? || !HasBrand(bs, f.brandId.value.value))
  }

  /** PUT /models/:id, as written. */
  method UpdateModel(db: Database, actor: Claims, id: int, f: ModelFields, c: Codec) returns (r: Reply<Model>)
    requires db.Valid()
    modifies db
    ensures db.Valid()
    ensures !HasModel(old(db.models), id) ==> r == Reply(NotFound, ModelNotFound, None) && unchanged(db)
    ensures HasModel(old(db.models), id) && BrandMissing(old(db.brands), f) ==>
      r == Reply(NotFound, BrandNotFound, None) && unchanged(db)
    ensures (&& HasModel(old(db.models), id) && !BrandMissing(old(db.brands), f)
             && AsWrittenClash(old(db.models), id, f)) ==>
      r == Reply(Conflict, "Ya existe otro modelo con ese nombre para esta marca.", None) && unchanged(db)
    ensures (&& HasModel(old(db.models), id) && !BrandMissing(old(db.brands), f)
             && !AsWrittenClash(old(db.models), id, f)) ==>
      var k := IndexWhere(old(db.models), ModelIdIs(id)).value;
      var row := Patched(old(db.models)[k], f, c);
      && r == Reply(Ok, "Modelo actualizado exitosamente", Some(row))
      && db.models == old(db.models)[k := row]
      && db.log == old(db.log) + [LogEntry(actor.id, UpdateModelAction, "Actualizó modelo ID: " + IntText(id), None)]
      && db.users == old(db.users) && db.brands == old(db.brands) && db.uploads == old(db.uploads)
      && db.nextUserId == old(db.nextUserId) && db.nextBrandId == old(db.nextBrandId)
      && db.nextModelId == old(db.nextModelId)
  {
    var found := IndexWhere(db.models, ModelIdIs(id));
    if found.None? {
      return Reply(NotFound, ModelNotFound, None);
    }
    if BrandMissing(db.brands, f) {
      return Reply(NotFound, BrandNotFound, None);
    }
    var k := found.value;
    if AsWrittenClash(db.models, id, f) {
      return Reply(Conflict, "Ya existe otro modelo con ese nombre para esta marca.", None);
    }
    var row := PendingRow(db.models[k], f, c);
    assert HasBrand(db.brands, db.models[k].brandId);
    db.SetModel(k, row);
    db.Record(LogEntry(actor.id, UpdateModelAction, "Actualizó modelo ID: " + IntText(id), None));
    r := Reply(Ok, "Modelo actualizado exitosamente", Some(row));
  }

  /** The corrected check keeps "no two models of a brand share a name ignoring case". */
  lemma IntendedClashKeepsNamesUnique(ms: seq<Model>, k: int, f: ModelFields, c: Codec)
    requires ModelNamesUnique(ms) && 0 <= k < |ms|
    requires forall i :: 0 <= i < |ms| && i != k ==> ms[i].id != ms[k].id
    requires !IntendedClash(ms, ms[k], f, c)
    ensures ModelNamesUnique(ms[k := Patched(ms[k], f, c)])
  {
    var p := Patched(ms[k], f, c);
    var nms := ms[k := p];
    forall i, j | 0 <= i < j < |nms|
      ensures !(nms[i].brandId == nms[j].brandId && Lower(nms[i].name) == Lower(nms[j].name))
    {
      if i == k && (f.brandId.Some? || !Blank(f.name)) {
        assert Some(ms[j].id) != Some(ms[k].id);
      } else if j == k && (f.brandId.Some? || !Blank(f.name)) {
        assert Some(ms[i].id) != Some(ms[k].id);
      }
    }
  }

  /**
   * The check as written lets a rename through that duplicates a name: two
   * models "A" and "B" of brand 1, and model 2 renamed to "a" without a brand_id.
   */
  lemma AsWrittenClashMissesDuplicate()
    ensures var ms := [Model(1, 1, "A", None, Some(""), None), Model(2, 1, "B", None, Some(""), None)];
      var f := ModelFields(None, Some("a"), None, None, None);
      var c := Codec(s => None, j => "");
      && ModelNamesUnique(ms)
      && !AsWrittenClash(ms, 2, f)
      && IntendedClash(ms, ms[1], f, c)
      && !ModelNamesUnique(ms[1 := Patched(ms[1], f, c)])
  {
    var ms := [Model(1, 1, "A", None, Some(""), None), Model(2, 1, "B", None, Some(""), None)];
    var f := ModelFields(None, Some("a"), None, None, None);
    var c := Codec(s => None, j => "");
    assert Trim("a") == "a" by {
      TrimOfTrimmed("a");
    }
    assert Lower("A") == "a" by {
      assert Lower("A")[0] == LowerChar('A') == 'a';
    }
    assert Lower("a") == "a" by {
      assert Lower("a")[0] == LowerChar('a') == 'a';
    }
    assert Lower("B") == "b" by {
      assert Lower("B")[0] == LowerChar('B') == 'b';
    }
    var p := Patched(ms[1], f, c);
    assert p == Model(2, 1, "a", None, Some(""), None);
    assert ms[0].brandId == p.brandId && Lower(ms[0].name) == Lower(p.name) && Some(ms[0].id) != Some(2);
    var nms := ms[1 := p];
    assert nms[0].brandId == nms[1].brandId && Lower(nms[0].name) == Lower(nms[1].name);
  }

  /** DELETE /models/:id. */
  method DeleteModel(db: Database, actor: Claims, id: int) returns (r: Reply<()>)
    requires db.Valid()
    modifies db
    ensures db.Valid()
    ensures !HasModel(old(db.models), id) ==> r == Reply(NotFound, ModelNotFound, None) && unchanged(db)
    ensures HasModel(old(db.models), id) ==>
      && r == Reply(Ok, "Modelo eliminado exitosamente", None)
      && db.models == Filter(old(db.models), OtherModel(id))
      && (exists m :: m in old(db.models) && m.id == id &&
            db.log == old(db.log) + [LogEntry(actor.id, DeleteModelAction, "Eliminó modelo: " + m.name, None)])
      && db.users == old(db.users) && db.brands == old(db.brands) && db.uploads == old(db.uploads)
      && db.nextUserId == old(db.nextUserId) && db.nextBrandId == old(db.nextBrandId)
      && db.nextModelId == old(db.nextModelId)
  {
    if !HasModel(db.models, id) {
      return Reply(NotFound, ModelNotFound, None);
    }
    var m :| m in db.models && m.id == id;
    db.RemoveModel(id);
    db.Record(LogEntry(actor.id, DeleteModelAction, "Eliminó modelo: " + m.name, None));
    r := Reply(Ok, "Modelo eliminado exitosamente", None);
  }

  /** Deleting a model removes exactly the model with that id. */
  lemma DeleteModelRemovesOnlyIt(ms: seq<Model>, id: int)
    ensures forall m :: m in Filter(ms, OtherModel(id)) <==> m in ms && m.id != id
  {
  }
}
