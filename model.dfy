/** Model.Load and the models it builds (Model.cs:16-42, 44-52, 207-226,
    306-310): a cache of models by name, each either an icosphere described
    by an XML document or a model read from an OBJ file. Reading a
    document is a parameter `docs` (the root element of the named file, or
    None when there is none); the lines of other files are the parameter
    `files`; number parsing is `parse` and `parseInt`; App.SizeAtNear is
    `sizeAtNear`. */
module Models {
  import opened Wrappers
  import opened Text
  import opened Xml
  import opened Materials
  import opened ObjModels
  import opened IcoSpheres

  /** The part of a SphereModel its constructor sets: radius, material,
      the pole texture fix, and the icosphere mesh. */
  class SphereModel {
    const Radius: real
    const Material: ObjMaterial
    const PoleHack: bool
    const Mesh: IcoSphere

    constructor (radius: real, material: ObjMaterial, poleHack: bool, mesh: IcoSphere)
      ensures Radius == radius && Material == material && PoleHack == poleHack && Mesh == mesh
    {
      Radius := radius;
      Material := material;
      PoleHack := poleHack;
      Mesh := mesh;
    }
  }

  /** The name of the material a sphere uses (Model.cs:218-223): its
      material attribute when that is not empty, else its model's name. */
  function SphereMaterialName(name: string, data: Element): (r: string)
    ensures !IsEmpty(Attr(Some(data.Node), "material", None)) ==> r == data.Node.Attributes["material"]
    ensures IsEmpty(Attr(Some(data.Node), "material", None)) ==> r == name
  {
    var str := Attr(Some(data.Node), "material", None);
    if !IsEmpty(str) then str.value else name
  }

  /** The SphereModel and IcoSphereModel constructors (Model.cs:209-226,
      308-310): the radius defaults to 0; a non-empty mtllib attribute loads
      that library first; the material must be registered, or the game
      throws; the sphere is subdivided once when it is no bigger than
      `sizeAtNear` and twice otherwise. */
  method LoadSphere(name: string, data: Element, registry: Registry, files: string -> seq<string>,
                    parse: string -> real, sizeAtNear: real) returns (r: Result<SphereModel>)
    requires registry.Valid()
    modifies registry`Materials, registry`Loaded
    ensures registry.Valid()
    ensures var lib := Attr(Some(data.Node), "mtllib", None);
      !IsEmpty(lib) ==> Skips(registry.Loaded, lib.value)
    ensures var lib := Attr(Some(data.Node), "mtllib", None);
      !IsEmpty(lib) && !Skips(old(registry.Loaded), lib.value) ==>
        registry.PropsOf() == old(registry.PropsOf()) + DefsFrom(files(lib.value), 0, parse)
    ensures var lib := Attr(Some(data.Node), "mtllib", None);
      IsEmpty(lib) || Skips(old(registry.Loaded), lib.value) ==> registry.Materials == old(registry.Materials)
    ensures registry.LibsOf() == SphereLibs(old(registry.LibsOf()), data, files, parse)
    ensures r.Success? <==> SphereMaterialName(name, data) in registry.Materials
    ensures r.Success? ==>
      var radius := FloatAt(data.Node, "radius", 0.0, parse);
      && fresh(r.value) && r.value.Radius == radius
      && r.value.Material == registry.Materials[SphereMaterialName(name, data)]
      && r.value.PoleHack == IsTrue(Attr(Some(data.Node), "poleHack", None))
      && r.value.Mesh.Points.Length == PointCount(if radius <= sizeAtNear then 1 else 2)
  {
    var radius := FloatAt(data.Node, "radius", 0.0, parse);
    var str := Attr(Some(data.Node), "mtllib", None);
    if !IsEmpty(str) {
      registry.LoadLibraryOnce(str.value, files(str.value), parse);
    }
    var material := registry.Get(SphereMaterialName(name, data));
    if material.Failure? {
      return Failure(material.error);
    }
    var poleHack := IsTrue(Attr(Some(data.Node), "poleHack", None));
    var mesh := new IcoSphere(radius, sizeAtNear);
    var sphere := new SphereModel(radius, material.value, poleHack, mesh);
    r := Success(sphere);
  }

  /** The libraries and materials after a sphere's constructor, from libs:
      a non-empty mtllib attribute loads that library, as LoadLibraryOnce
      does. */
  function SphereLibs(libs: Libs, data: Element, files: string -> seq<string>, parse: string -> real): Libs
  {
    var lib := Attr(Some(data.Node), "mtllib", None);
    if IsEmpty(lib) then libs else LoadOnce(libs, lib.value, files(lib.value), parse)
  }

  /** The OBJ file an ObjModel reads (Model.cs:47-48): the model's name with
      ".obj" appended, unless its data names another in a model attribute. */
  function ObjFileName(name: string, data: Option<Element>): (r: string)
    ensures data.Some? && "model" in data.value.Node.Attributes ==> r == data.value.Node.Attributes["model"]
    ensures data.None? || "model" !in data.value.Node.Attributes ==> r == name + ".obj"
  {
    Attr(if data.Some? then Some(data.value.Node) else None, "model", Some(name + ".obj")).value
  }

  /** The ObjModel constructor (Model.cs:46-52): the model read from its OBJ
      file. */
  method LoadObjModel(name: string, data: Option<Element>, registry: Registry, files: string -> seq<string>,
                      parse: string -> real, parseInt: string -> int) returns (r: Result<ObjData>)
    requires registry.Valid()
    modifies registry`Materials, registry`Loaded
    ensures registry.Valid()
    ensures var lines := files(ObjFileName(name, data));
      registry.LibsOf() == HeaderFold(lines, BlockEnd(lines, 0, "o "), old(registry.LibsOf()), files, parse)
    ensures var lines := files(ObjFileName(name, data));
      r == ReadObjects(lines, BlockEnd(lines, 0, "o "), ObjData([], [], [], []), registry.Materials, data, parse, parseInt)
    ensures r.Success? ==> WellRead(r.value)
  {
    r := LoadObj(files(ObjFileName(name, data)), data, registry, files, parse, parseInt);
  }

  /** What a model is made of. */
  datatype Body = ObjBody(Obj: ObjData) | SphereBody(Sphere: SphereModel)

  /** A loaded model: the XML element describing it, if any, and its
      body. */
  class Model {
    const Data: Option<Element>
    const Body: Body

    constructor (data: Option<Element>, body: Body)
      ensures Data == data && Body == body
    {
      Data := data;
      Body := body;
    }
  }

  /** The document element of "name.xml" describes a sphere. */
  predicate IsSphereDoc(doc: Option<Element>)
  {
    doc.Some? && doc.value.LocalName == "sphere"
  }

  /** The libraries and materials after Model.Load of a model not yet
      loaded, from libs: a sphere document loads its mtllib attribute's
      library; anything else loads the libraries its OBJ file's header
      names. This holds whether or not the model then loads. */
  function ModelLibs(name: string, data: Option<Element>, docs: string -> Option<Element>,
                     files: string -> seq<string>, parse: string -> real, libs: Libs): Libs
  {
    var d := if data.Some? then data else docs(name + ".xml");
    if data.None? && IsSphereDoc(d) then SphereLibs(libs, d.value, files, parse)
    else
      var lines := files(ObjFileName(name, d));
      HeaderFold(lines, BlockEnd(lines, 0, "o "), libs, files, parse)
  }

  /** The static dictionary of Model (Model.cs:40) and Model.Load
      (Model.cs:23-38). */
  class ModelCache {
    var Models: map<string, Model>

    constructor ()
      ensures Models == map[]
    {
      Models := map[];
    }

    /** Model.Load: a model already loaded under the name is returned as it
        is, and nothing else happens. Otherwise, when no data is given, the
        document "name.xml" is read; if its root is a "sphere" element the
        model is an icosphere, and in every other case it is read from its
        OBJ file, with the given data or else that document's root, if
        any. A model that loads is remembered under its name; one whose
        loading throws is not. */
    method Load(name: string, data: Option<Element>, docs: string -> Option<Element>, registry: Registry,
                files: string -> seq<string>, parse: string -> real, parseInt: string -> int, sizeAtNear: real)
      returns (r: Result<Model>)
      requires registry.Valid()
      modifies this, registry`Materials, registry`Loaded
      ensures registry.Valid()
      ensures name in old(Models) ==>
        && r == Success(old(Models)[name]) && Models == old(Models)
        && registry.Materials == old(registry.Materials) && registry.Loaded == old(registry.Loaded)
      ensures name !in old(Models) && r.Failure? ==> Models == old(Models)
      ensures name !in old(Models) ==>
        registry.LibsOf() == ModelLibs(name, data, docs, files, parse, old(registry.LibsOf()))
      ensures name !in old(Models) && r.Success? ==>
        var m := r.value;
        && fresh(m) && Models == old(Models)[name := m]
        && m.Data == (if data.Some? then data else docs(name + ".xml"))
        && (m.Body.SphereBody? <==> data.None? && IsSphereDoc(docs(name + ".xml")))
        && (m.Body.ObjBody? ==>
              var lines := files(ObjFileName(name, m.Data));
              && ReadObjects(lines, BlockEnd(lines, 0, "o "), ObjData([], [], [], []),
                             registry.Materials, m.Data, parse, parseInt) == Success(m.Body.Obj)
              && WellRead(m.Body.Obj))
    {
      if name in Models {
        return Success(Models[name]);
      }
      var data := data;
      var body: Body;
      var sphere := false;
      if data.None? {
        var doc := docs(name + ".xml");
        if doc.Some? {
          data := doc;
          if doc.value.LocalName == "sphere" {
            var s := LoadSphere(name, doc.value, registry, files, parse, sizeAtNear);
            if s.Failure? {
              return Failure(s.error);
            }
            body := SphereBody(s.value);
            sphere := true;
          }
        }
      }
      if !sphere {
        var obj := LoadObjModel(name, data, registry, files, parse, parseInt);
        if obj.Failure? {
          return Failure(obj.error);
        }
        body := ObjBody(obj.value);
      }
      var model := new Model(data, body);
      Models := Models[name := model];
      r := Success(model);
    }
  }
}
