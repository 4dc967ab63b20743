/**
 * The image handlers behind /upload: confirm an upload, delete an image that
 * no model references, and list the images of the upload directory. The
 * directory is `Database.uploads`; the file of an upload is written by the
 * multer middleware before `UploadImage` runs, so the handler itself only
 * answers and logs.
 */
module UploadController {
  import opened Wrappers
  import opened Text
  import opened Seqs
  import opened Store

  /** `req.file` as multer fills it. */
  datatype UploadedFile = UploadedFile(filename: string, originalName: string, size: int, mimetype: string)

  /** The `data` of a successful upload. */
  datatype UploadInfo = UploadInfo(filename: string, originalName: string, size: int, mimetype: string, url: string)

  /** One entry of the image listing. */
  datatype ImageInfo = ImageInfo(filename: string, url: string, size: int, created: int)

  /** The `{id, name}` rows of the models that still use an image. */
  datatype ModelRef = ModelRef(id: int, name: string)

  /** The public URL of a file of the upload directory. */
  function UploadUrl(name: string): (u: string)
    ensures u == "/uploads/" + name && |u| == 9 + |name| && u[9..] == name
  {
    "/uploads/" + name
  }

  /** POST /upload. */
  method UploadImage(db: Database, actor: Claims, file: Option<UploadedFile>) returns (r: Reply<UploadInfo>)
    requires db.Valid()
    modifies db
    ensures db.Valid()
    ensures file.None? ==> r == Reply(BadRequest, "No se ha proporcionado ningún archivo.", None) && unchanged(db)
    ensures file.Some? ==>
      var f := file.value;
      && r == Reply(Ok, "Imagen subida exitosamente",
                    Some(UploadInfo(f.filename, f.originalName, f.size, f.mimetype, UploadUrl(f.filename))))
      && db.log == old(db.log) + [LogEntry(actor.id, UploadImageAction, "Subió imagen: " + f.filename, None)]
      && db.users == old(db.users) && db.brands == old(db.brands) && db.models == old(db.models)
      && db.uploads == old(db.uploads) && db.nextUserId == old(db.nextUserId)
      && db.nextBrandId == old(db.nextBrandId) && db.nextModelId == old(db.nextModelId)
  {
    if file.None? {
      return Reply(BadRequest, "No se ha proporcionado ningún archivo.", None);
    }
    var f := file.value;
    var url := UploadUrl(f.filename);
    db.Record(LogEntry(actor.id, UploadImageAction, "Subió imagen: " + f.filename, None));
    r := Reply(Ok, "Imagen subida exitosamente", Some(UploadInfo(f.filename, f.originalName, f.size, f.mimetype, url)));
  }

  /** A name that could leave the upload directory: it holds `..` or `/`. */
  predicate UnsafeName(name: string)
    ensures !UnsafeName(name) ==> '/' !in name && name != ".." && name != "../"
  {
    Contains(name, "..") || '/' in name
  }

  predicate HasFile(fs: seq<StoredFile>, name: string) {
    exists f :: f in fs && f.name == name
  }

  /** `WHERE image_url = $1`. */
  function UsesImage(url: string): Model -> bool {
    (m: Model) => m.imageUrl == Some(url)
  }

  /** The `id, name` columns of some model rows. */
  function Refs(ms: seq<Model>): (r: seq<ModelRef>)
    ensures |r| == |ms|
    ensures forall i :: 0 <= i < |ms| ==> r[i] == ModelRef(ms[i].id, ms[i].name)
  {
    if ms == [] then [] else [ModelRef(ms[0].id, ms[0].name)] + Refs(ms[1..])
  }

  /** The refusal of deleteImage lists exactly the models whose image is the file. */
  lemma RefsListUsers(ms: seq<Model>, url: string)
    ensures forall x :: x in Refs(Filter(ms, UsesImage(url))) <==>
      exists m :: m in ms && m.imageUrl == Some(url) && x == ModelRef(m.id, m.name)
  {
    var us := Filter(ms, UsesImage(url));
    forall x ensures x in Refs(us) <==> exists m :: m in ms && m.imageUrl == Some(url) && x == ModelRef(m.id, m.name) {
      if x in Refs(us) {
        var i :| 0 <= i < |us| && Refs(us)[i] == x;
        assert us[i] in us;
      }
      if m :| m in ms && m.imageUrl == Some(url) && x == ModelRef(m.id, m.name) {
        assert UsesImage(url)(m);
        var i :| 0 <= i < |us| && us[i] == m;
        assert Refs(us)[i] == x;
      }
    }
  }

  /** DELETE /upload/:filename. */
  method DeleteImage(db: Database, actor: Claims, filename: string) returns (r: Reply<seq<ModelRef>>)
    requires db.Valid()
    modifies db
    ensures db.Valid()
    ensures UnsafeName(filename) ==> r == Reply(BadRequest, "Nombre de archivo inválido.", None) && unchanged(db)
    ensures !UnsafeName(filename) && !HasFile(old(db.uploads), filename) ==>
      r == Reply(NotFound, "Archivo no encontrado.", None) && unchanged(db)
    ensures (&& !UnsafeName(filename) && HasFile(old(db.uploads), filename)
             && Filter(old(db.models), UsesImage(UploadUrl(filename))) != []) ==>
      && r == Reply(Conflict, "La imagen está siendo utilizada por uno o más modelos.",
                    Some(Refs(Filter(old(db.models), UsesImage(UploadUrl(filename))))))
      && unchanged(db)
    ensures (&& !UnsafeName(filename) && HasFile(old(db.uploads), filename)
             && Filter(old(db.models), UsesImage(UploadUrl(filename))) == []) ==>
      && r == Reply(Ok, "Imagen eliminada exitosamente", None)
      && db.uploads == Filter(old(db.uploads), OtherFile(filename))
      && db.log == old(db.log) + [LogEntry(actor.id, DeleteImageAction, "Eliminó imagen: " + filename, None)]
      && db.users == old(db.users) && db.brands == old(db.brands) && db.models == old(db.models)
      && db.nextUserId == old(db.nextUserId) && db.nextBrandId == old(db.nextBrandId)
      && db.nextModelId == old(db.nextModelId)
  {
    if Contains(filename, "..") || '/' in filename {
      return Reply(BadRequest, "Nombre de archivo inválido.", None);
    }
    if !HasFile(db.uploads, filename) {
      return Reply(NotFound, "Archivo no encontrado.", None);
    }
    var using := Filter(db.models, UsesImage(UploadUrl(filename)));
    if |using| > 0 {
      return Reply(Conflict, "La imagen está siendo utilizada por uno o más modelos.", Some(Refs(using)));
    }
    db.RemoveFile(filename);
    db.Record(LogEntry(actor.id, DeleteImageAction, "Eliminó imagen: " + filename, None));
    r := Reply(Ok, "Imagen eliminada exitosamente", None);
  }

  /** File names are unique, so unlinking one removes exactly one entry and keeps the others. */
  lemma {:induction false} RemoveFileRemovesOne(fs: seq<StoredFile>, name: string)
    requires FilesOk(fs) && HasFile(fs, name)
    ensures |Filter(fs, OtherFile(name))| == |fs| - 1
    ensures forall f :: f in Filter(fs, OtherFile(name)) <==> f in fs && f.name != name
  {
    var rest := fs[1..];
    assert fs == [fs[0]] + rest;
    if fs[0].name == name {
      forall i | 0 <= i < |rest| ensures OtherFile(name)(rest[i]) {
        assert fs[0].name != fs[i + 1].name;
      }
      FilterAll(rest, OtherFile(name));
    } else {
      var f :| f in fs && f.name == name;
      assert f in rest;
      RemoveFileRemovesOne(rest, name);
    }
  }

  /** The index of the last `.` of `s`. */
  function LastDot(s: string): (r: Option<nat>)
    ensures r.Some? ==> r.value < |s| && s[r.value] == '.' && '.' !in s[r.value + 1..]
    ensures r.None? <==> '.' !in s
  {
    if s == [] then None
    else if s[|s| - 1] == '.' then Some(|s| - 1)
    else
      var r := LastDot(s[..|s| - 1]);
      assert s == s[..|s| - 1] + [s[|s| - 1]];
      if r.Some? then
        assert s[r.value + 1..] == s[..|s| - 1][r.value + 1..] + [s[|s| - 1]];
        r
      else r
  }

  /**
   * `path.extname` of a directory entry (a name without `/`): from the last
   * `.` to the end, or empty when there is no `.`, when the only `.` that
   * counts starts the name (a hidden file such as `.png`), or for `..`.
   */
  function Extname(name: string): (e: string)
    ensures e == "" || (e[0] == '.' && '.' !in e[1..] && |e| <= |name| && e == name[|name| - |e|..])
  {
    match LastDot(name)
    case None => ""
    case Some(d) =>
      if d == 0 || name == ".." then ""
      else
        assert name[d..][1..] == name[d + 1..];
        name[d..]
  }

  /** A name `stem.ext` with a non-empty stem and a dot-free extension has extension `.ext`. */
  lemma ExtnameOfStem(stem: string, ext: string)
    requires stem != "" && '.' !in ext && !(stem == "." && ext == "")
    ensures Extname(stem + "." + ext) == "." + ext
  {
    var name := stem + "." + ext;
    var d := |stem|;
    assert name[d] == '.';
    assert name[d + 1..] == ext;
    var l := LastDot(name);
    assert l.value == d;
    assert name != ".." by {
      if |name| == 2 {
        assert |stem| == 1 && ext == "";
        assert stem[0] == name[0];
        assert stem != ".";
      }
    }
    assert name[d..] == "." + ext;
  }

  /** A hidden file (`.png`, `.gitignore`) has no extension, so it is never listed as an image. */
  lemma HiddenFileHasNoExt(ext: string)
    requires '.' !in ext
    ensures Extname("." + ext) == ""
    ensures !IsImageName("." + ext)
  {
    var name := "." + ext;
    assert name[1..] == ext;
    assert LastDot(name) == Some(0);
  }

  const ImageExtensions: seq<string> := [".jpg", ".jpeg", ".png", ".gif", ".webp"]

  /** The extension, lowercased, is one of the image extensions. */
  predicate IsImageName(name: string)
    ensures IsImageName(name) ==> 4 <= |Extname(name)| <= 5 && name != Extname(name)
  {
    Lower(Extname(name)) in ImageExtensions
  }

  function IsImageFile(): StoredFile -> bool {
    (f: StoredFile) => IsImageName(f.name)
  }

  /** The listing entry of a file. */
  function Info(f: StoredFile): (i: ImageInfo)
    ensures i.filename == f.name && i.url == UploadUrl(f.name) && i.size == f.size && i.created == f.created
  {
    ImageInfo(f.name, UploadUrl(f.name), f.size, f.created)
  }

  function Infos(fs: seq<StoredFile>): (r: seq<ImageInfo>)
    ensures |r| == |fs|
    ensures forall i :: 0 <= i < |fs| ==> r[i] == Info(fs[i])
  {
    if fs == [] then [] else [Info(fs[0])] + Infos(fs[1..])
  }

  /** `(a, b) => b.created - a.created`: newest first. */
  predicate NewerFirst(a: ImageInfo, b: ImageInfo) {
    a.created >= b.created
  }

  lemma NewerFirstTotal()
    ensures Total(NewerFirst)
  {
  }

  /** The entries made from the image files are the entries of exactly those files. */
  lemma InfosOfImages(fs: seq<StoredFile>)
    ensures forall x :: x in Infos(Filter(fs, IsImageFile())) <==> exists f :: f in fs && IsImageName(f.name) && x == Info(f)
  {
    var images := Filter(fs, IsImageFile());
    var infos := Infos(images);
    forall x ensures x in infos <==> exists f :: f in fs && IsImageName(f.name) && x == Info(f) {
      if x in infos {
        var i :| 0 <= i < |infos| && infos[i] == x;
        assert images[i] in images;
      }
      if f :| f in fs && IsImageName(f.name) && x == Info(f) {
        assert IsImageFile()(f);
        var i :| 0 <= i < |images| && images[i] == f;
        assert infos[i] == x;
      }
    }
  }

  /** GET /upload: the image files of the directory, newest first. */
  function ListImages(db: Database): (r: Reply<seq<ImageInfo>>)
    reads db
    ensures r.status == Ok && r.data.Some?
    ensures SortedBy(r.data.value, NewerFirst)
    ensures multiset(r.data.value) == multiset(Infos(Filter(db.uploads, IsImageFile())))
    ensures forall x :: x in r.data.value <==> exists f :: f in db.uploads && IsImageName(f.name) && x == Info(f)
  {
    NewerFirstTotal();
    var infos := Infos(Filter(db.uploads, IsImageFile()));
    var sorted := SortBy(infos, NewerFirst);
    InfosOfImages(db.uploads);
    SameMembers(sorted, infos);
    Reply(Ok, "", Some(sorted))
  }
}
