/** The bookkeeping of `NetworkImporter` in Unity/Assets/Scripts/NetworkImporter.cs:
    the models and materials imported so far, the names whose import has started,
    the light-style table, and the game objects made for the latest snapshot.

    Downloads, JSON and base64 decoding, coroutines and the Unity objects themselves
    are not modelled: a downloaded texture or model arrives as a value, a started
    import is recorded in a queue, and a game object is the value it was given. */
module Client {
  import opened Results
  import opened Bytes
  import opened Geometry
  import opened Meshes
  import opened PyLists
  import opened ClientMesh
  import opened ClientTexture

  /** `QMipTex` as downloaded, with its base64 `data` decoded. */
  datatype MipTex = MipTex(width: int, height: int, data: seq<byte>, effect: string)

  /** A material instantiated from one of the three prefabs, with its textures. */
  datatype Material =
    | SkyMaterial(main: Texture, extra: Texture)
    | WaterMaterial(main: Texture)
    | WorldMaterial(main: Texture)

  /** What `LoadEntity` puts on a game object: a mesh and the model's materials. */
  datatype Shown = Shown(mesh: MeshData, materials: seq<Material>)

  /** A game object made for an entity of a snapshot, with what `LoadEntity` put on
      it (`None` when it failed). */
  datatype Placed = Placed(model: string, origin: Vec3, angles: Vec3, shown: Option<Shown>)

  /** `QEdict`: an entity of a snapshot. */
  datatype Edict = Edict(model: string, origin: Vec3, angles: Vec3, frame: int)

  /** `QSnapshot`: the light styles from 32 on, and the entities. */
  datatype Snapshot = Snapshot(ls32: seq<string>, edicts: seq<Edict>)

  /** The material `ImportTexture` makes of a texture: a sky splits into two halves;
      any other texture is expanded whole, with its width as the scanline, into a
      water or a world material. */
  function MaterialOf(tex: MipTex, palette: seq<Color>): (r: Result<Material>)
    ensures r.Ok? ==> (r.value.SkyMaterial? <==> tex.effect == "sky")
    ensures r.Ok? ==> (r.value.WaterMaterial? <==> tex.effect == "water")
  {
    if tex.effect == "sky" then
      var halves :- SkyOf(palette, tex.data, tex.width, tex.height);
      Ok(SkyMaterial(halves.0, halves.1))
    else
      var whole :- TextureOf(palette, tex.data, tex.width, tex.height, tex.width, 0);
      if tex.effect == "water" then Ok(WaterMaterial(whole.0)) else Ok(WorldMaterial(whole.0))
  }

  /** The meshes of the first `k` frames, one per frame. */
  function MeshesOf(frames: seq<QFrame>, uvs: seq<UV>, faces: seq<Face>, numTextures: nat, k: nat)
    : (r: Result<seq<MeshData>>)
    requires k <= |frames|
  {
    if k == 0 then Ok([])
    else
      var prev :- MeshesOf(frames, uvs, faces, numTextures, k - 1);
      var mesh :- MeshOf(frames, uvs, faces, numTextures, k - 1);
      Ok(prev + [mesh])
  }

  /** The materials of the named textures, in the order of the names. */
  function MaterialsOf(names: seq<string>, materials: map<string, Material>): (r: Result<seq<Material>>)
  {
    if names == [] then Ok([])
    else
      var prev :- MaterialsOf(names[..|names| - 1], materials);
      if names[|names| - 1] in materials then Ok(prev + [materials[names[|names| - 1]]])
      else Err(KeyError)
  }

  /** A failure stays a failure, with the same error, as more frames are added. */
  lemma {:induction false} MeshesErrStays(frames: seq<QFrame>, uvs: seq<UV>, faces: seq<Face>,
                                          numTextures: nat, k: nat, n: nat)
    requires k <= n <= |frames| && MeshesOf(frames, uvs, faces, numTextures, k).Err?
    ensures MeshesOf(frames, uvs, faces, numTextures, n) == MeshesOf(frames, uvs, faces, numTextures, k)
    decreases n - k
  {
    if k < n {
      MeshesErrStays(frames, uvs, faces, numTextures, k, n - 1);
    }
  }

  /** A failure stays a failure, with the same error, as more names are added. */
  lemma {:induction false} MaterialsErrStays(names: seq<string>, materials: map<string, Material>, k: nat)
    requires k <= |names| && MaterialsOf(names[..k], materials).Err?
    ensures MaterialsOf(names, materials) == MaterialsOf(names[..k], materials)
    decreases |names| - k
  {
    if k < |names| {
      assert names[..|names| - 1][..k] == names[..k];
      MaterialsErrStays(names[..|names| - 1], materials, k);
    } else {
      assert names[..k] == names;
    }
  }

  /** `ImportMeshes` makes one mesh per frame: frame `i`'s positions and normals over
      the triangle lists shared by every frame. It fails exactly when the model has a
      frame and its faces cannot be triangulated. */
  lemma {:induction false} OneMeshPerFrame(frames: seq<QFrame>, uvs: seq<UV>, faces: seq<Face>,
                                           numTextures: nat, k: nat)
    requires k <= |frames|
    ensures MeshesOf(frames, uvs, faces, numTextures, k).Ok? <==>
            k == 0 || (TexturesInRange(faces, numTextures) && Polygons(faces))
    ensures var r := MeshesOf(frames, uvs, faces, numTextures, k);
            r.Ok? ==> |r.value| == k &&
                      forall i | 0 <= i < k ::
                        r.value[i].vertices == frames[i].v && r.value[i].normals == frames[i].n &&
                        r.value[i].uv == uvs &&
                        r.value[i].triangles == seq(numTextures, u => Expected(faces, u))
    decreases k
  {
    if k > 0 {
      OneMeshPerFrame(frames, uvs, faces, numTextures, k - 1);
      MeshOk(frames, uvs, faces, numTextures, k - 1);
    }
  }

  /** The materials array has one entry per texture name, in the same order, and it
      can be built exactly when every name has a material. */
  lemma {:induction false} MaterialsInOrder(names: seq<string>, materials: map<string, Material>)
    ensures MaterialsOf(names, materials).Ok? <==> forall i | 0 <= i < |names| :: names[i] in materials
    ensures var r := MaterialsOf(names, materials);
            r.Ok? ==> |r.value| == |names| &&
                      forall i | 0 <= i < |names| :: r.value[i] == materials[names[i]]
    decreases |names|
  {
    if names != [] {
      MaterialsInOrder(names[..|names| - 1], materials);
    }
  }

  /** The state the texture loop of `ImportModel` leaves: the materials, and whether
      every texture was imported. */
  datatype TextureImport = TextureImport(materials: map<string, Material>, outcome: Result<()>)

  /** The texture loop of `ImportModel`: in the order of `names`, each name without a
      material gets the material of its download through `palette`; the first texture
      that cannot be expanded stops the loop, keeping the materials made before it. */
  function ImportedTextures(names: seq<string>, download: string -> MipTex, palette: seq<Color>,
                            materials: map<string, Material>): (r: TextureImport)
    ensures Keeps(materials, r.materials)
    ensures forall k | k in r.materials && k !in materials ::
              k in names && MaterialOf(download(k), palette) == Ok(r.materials[k])
    ensures r.outcome.Ok? <==>
            forall i | 0 <= i < |names| :: names[i] in materials || MaterialOf(download(names[i]), palette).Ok?
    ensures r.outcome.Ok? ==> forall i | 0 <= i < |names| :: names[i] in r.materials
    ensures r.outcome.Err? ==>
              exists i | 0 <= i < |names| ::
                names[i] !in r.materials && MaterialOf(download(names[i]), palette) == Err(r.outcome.error)
    decreases |names|
  {
    if names == [] then TextureImport(materials, Ok(()))
    else if names[0] in materials then
      var rest := ImportedTextures(names[1..], download, palette, materials);
      assert forall i | 1 <= i < |names| :: names[i] == names[1..][i - 1];
      rest
    else
      match MaterialOf(download(names[0]), palette)
      case Err(e) => TextureImport(materials, Err(e))
      case Ok(m) =>
        var rest := ImportedTextures(names[1..], download, palette, materials[names[0] := m]);
        assert forall i | 1 <= i < |names| :: names[i] == names[1..][i - 1];
        rest
  }

  /** `model` holds what `ImportMeshes` gives it: one mesh per frame, and the materials
      of its texture names. */
  ghost predicate ImportedFrom(model: QModel, materials: map<string, Material>)
    reads model
  {
    MeshesOf(model.frames, model.uvs, model.faces, |model.texturenames|, |model.frames|) == Ok(model.meshes) &&
    MaterialsOf(model.texturenames, materials) == Ok(model.materials)
  }

  /** One step of the entity loop of `NetworkUpdateData`. */
  datatype Progress = Progress(importing: map<string, bool>, queue: seq<string>,
                               shown: seq<Placed>, rotating: seq<Placed>, failed: bool)

  /** What the entity loop needs of an imported model. */
  datatype ModelView = ModelView(meshes: seq<MeshData>, materials: seq<Material>, autorotate: int)

  /** `LoadEntity(go, model, frameindex)`: the frame's mesh and the model's materials. */
  function LoadEntityOf(view: ModelView, frameindex: int): (r: Result<Shown>)
    ensures r.Ok? <==> 0 <= frameindex < |view.meshes|
  {
    if 0 <= frameindex < |view.meshes| then Ok(Shown(view.meshes[frameindex], view.materials))
    else Err(IndexError)
  }

  /** The start of an entity's turn: its model's import is started if it never was.
      `StartCoroutine` runs the import up to its first pause, so an import in
      `finishing` (every file it needs is cached) runs to its end at once, leaving the
      model imported when it succeeds and marked as importing for good when it fails;
      any other import is queued. No game object changes. */
  function Started(p: Progress, ed: Edict, view: map<string, ModelView>, finishing: set<string>): (r: Progress)
    ensures r.shown == p.shown && r.rotating == p.rotating && r.failed == p.failed
    ensures ed.model in r.importing && p.importing.Keys <= r.importing.Keys
  {
    if ed.model in p.importing then p
    else if ed.model in finishing then p.(importing := p.importing[ed.model := ed.model !in view])
    else p.(importing := p.importing[ed.model := true], queue := p.queue + [ed.model])
  }

  /** The rest of an entity's turn: a game object is made for the entity when its
      model is imported (`view` holds the models imported once the loop is over), and
      it also rotates when the model does. A frame the model lacks stops the loop. */
  function Shows(p: Progress, ed: Edict, view: map<string, ModelView>): (r: Progress)
    ensures r.importing == p.importing && r.queue == p.queue
  {
    if ed.model !in view then p
    else
      match LoadEntityOf(view[ed.model], ed.frame)
      case Err(_) =>
        p.(shown := p.shown + [Placed(ed.model, ed.origin, ed.angles, None)], failed := true)
      case Ok(s) =>
        var go := Placed(ed.model, ed.origin, ed.angles, Some(s));
        p.(shown := p.shown + [go],
           rotating := if view[ed.model].autorotate != 0 then p.rotating + [go] else p.rotating)
  }

  /** One entity of a snapshot, unless the loop has stopped. */
  function Step(p: Progress, ed: Edict, view: map<string, ModelView>, finishing: set<string>): (r: Progress)
  {
    if p.failed then p else Shows(Started(p, ed, view, finishing), ed, view)
  }

  /** The entity loop over the first `k` entities. */
  function Run(p: Progress, edicts: seq<Edict>, view: map<string, ModelView>, finishing: set<string>): (r: Progress)
    decreases |edicts|
  {
    if edicts == [] then p
    else Step(Run(p, edicts[..|edicts| - 1], view, finishing), edicts[|edicts| - 1], view, finishing)
  }

  /** What a run of the entity loop keeps true of the imports, starting from `p0`:
      the names it queues after `p0`'s queue are distinct, were not importing before
      and do not finish at once, and are marked as importing; every other name it adds
      to `models_importing` finished at once, and is still marked as importing exactly
      when its import failed; and every name that was importing keeps its flag. */
  ghost predicate StartsOnce(p0: Progress, q: Progress, view: map<string, ModelView>, finishing: set<string>)
  {
    p0.queue <= q.queue &&
    var added := q.queue[|p0.queue|..];
    Distinct(added) &&
    (forall x | x in added :: x !in p0.importing && x !in finishing && x in q.importing && q.importing[x]) &&
    (forall x | x in q.importing && x !in p0.importing ::
       x in added || (x in finishing && (q.importing[x] <==> x !in view))) &&
    (forall x | x in p0.importing :: x in q.importing && q.importing[x] == p0.importing[x])
  }

  /** One entity keeps `StartsOnce`, and afterwards its model is importing unless the
      loop had already stopped. */
  lemma StepStartsOnce(p0: Progress, q: Progress, ed: Edict, view: map<string, ModelView>, finishing: set<string>)
    requires StartsOnce(p0, q, view, finishing)
    ensures StartsOnce(p0, Step(q, ed, view, finishing), view, finishing)
    ensures q.importing.Keys <= Step(q, ed, view, finishing).importing.Keys
    ensures !q.failed ==> ed.model in Step(q, ed, view, finishing).importing
  {
    var q1 := Step(q, ed, view, finishing);
    if !q.failed && ed.model !in q.importing && ed.model !in finishing {
      var added := q.queue[|p0.queue|..];
      assert q1.queue[|p0.queue|..] == added + [ed.model];
      assert ed.model !in added;
    }
  }

  /** An import is started at most once per name, and only for a name that was not
      already importing (`StartsOnce`); when the loop runs through, every entity's
      model is importing or imported. */
  lemma {:induction false} ImportsStartOnce(p: Progress, edicts: seq<Edict>, view: map<string, ModelView>,
                                            finishing: set<string>)
    ensures StartsOnce(p, Run(p, edicts, view, finishing), view, finishing)
    ensures !Run(p, edicts, view, finishing).failed ==>
              forall i | 0 <= i < |edicts| :: edicts[i].model in Run(p, edicts, view, finishing).importing
    decreases |edicts|
  {
    if edicts == [] {
      assert p.queue[|p.queue|..] == [];
    } else {
      var e := edicts[..|edicts| - 1];
      ImportsStartOnce(p, e, view, finishing);
      var q := Run(p, e, view, finishing);
      StepStartsOnce(p, q, edicts[|edicts| - 1], view, finishing);
      assert forall i | 0 <= i < |e| :: e[i] == edicts[i];
    }
  }

  /** The loop never loses a name from `models_importing`, and once it has met an
      entity its model is there, unless the loop had already stopped. */
  lemma {:induction false} RunImportingGrows(p: Progress, edicts: seq<Edict>, k: nat, view: map<string, ModelView>,
                                             finishing: set<string>)
    requires k <= |edicts|
    ensures Run(p, edicts[..k], view, finishing).importing.Keys <= Run(p, edicts, view, finishing).importing.Keys
    decreases |edicts| - k
  {
    if k < |edicts| {
      var e := edicts[..|edicts| - 1];
      assert e[..k] == edicts[..k];
      RunImportingGrows(p, e, k, view, finishing);
    } else {
      assert edicts[..k] == edicts;
    }
  }

  /** `w` keeps every material of `v`. */
  ghost predicate Keeps(v: map<string, Material>, w: map<string, Material>)
  {
    forall x | x in v :: x in w && w[x] == v[x]
  }

  /** `w` keeps every model of `v`. */
  ghost predicate Extends(v: map<string, ModelView>, w: map<string, ModelView>)
  {
    forall x | x in v :: x in w && w[x] == v[x]
  }

  /** No model `w` adds to `v` has been started in `importing`. */
  ghost predicate AddsUnstarted(v: map<string, ModelView>, w: map<string, ModelView>, importing: map<string, bool>)
  {
    forall x | x in w && x !in v :: x !in importing
  }

  /** The only model `w` adds to `v` is `name`, and it had not been started. */
  ghost predicate AddsOnly(v: map<string, ModelView>, w: map<string, ModelView>, name: string,
                           importing: map<string, bool>)
  {
    AddsUnstarted(v, w, importing) && forall x | x in w && x !in v :: x == name
  }

  /** The second of two updates of one key wins. */
  lemma UpdatedTwice<K, V>(m: map<K, V>, k: K, a: V, b: V)
    ensures m[k := a][k := b] == m[k := b]
  {
  }

  /** Adding a model that was not there extends a view. */
  lemma ExtendsByAdding(v: map<string, ModelView>, name: string, view: ModelView)
    requires name !in v
    ensures Extends(v, v[name := view])
  {
  }

  /** The loop over one more entity is one more step. */
  lemma RunPrefix(p: Progress, edicts: seq<Edict>, k: nat, view: map<string, ModelView>, finishing: set<string>)
    requires k < |edicts|
    ensures Run(p, edicts[..k + 1], view, finishing) == Step(Run(p, edicts[..k], view, finishing), edicts[k], view, finishing)
  {
    assert edicts[..k + 1][..k] == edicts[..k];
  }

  /** The loop looks up only models imported before it or started by it: a view that
      adds models the loop never started leaves the run as it is. */
  lemma {:induction false} RunCongruent(p: Progress, edicts: seq<Edict>, view: map<string, ModelView>,
                                        view': map<string, ModelView>, finishing: set<string>)
    requires Extends(view, view')
    requires AddsUnstarted(view, view', Run(p, edicts, view, finishing).importing)
    ensures Run(p, edicts, view', finishing) == Run(p, edicts, view, finishing)
    decreases |edicts|
  {
    if edicts != [] {
      var e := edicts[..|edicts| - 1];
      var ed := edicts[|edicts| - 1];
      RunImportingGrows(p, edicts, |edicts| - 1, view, finishing);
      RunCongruent(p, e, view, view', finishing);
      var q := Run(p, e, view, finishing);
      if !q.failed {
        assert ed.model in Step(q, ed, view, finishing).importing;
        assert ed.model in view' <==> ed.model in view;
      }
    }
  }

  /** Every game object made shows a frame of its imported model with the model's
      materials, and the rotating ones are those of rotating models. */
  lemma {:induction false} ShownFromModels(p: Progress, edicts: seq<Edict>, view: map<string, ModelView>,
                                           finishing: set<string>)
    requires p.shown == [] && p.rotating == [] && !p.failed
    ensures var q := Run(p, edicts, view, finishing);
            forall g | g in q.shown && g.shown.Some? ::
              g.model in view && g.shown.value.materials == view[g.model].materials &&
              g.shown.value.mesh in view[g.model].meshes
    ensures var q := Run(p, edicts, view, finishing);
            forall g | g in q.rotating ::
              g in q.shown && g.shown.Some? && g.model in view && view[g.model].autorotate != 0
    decreases |edicts|
  {
    if edicts != [] {
      var q := Run(p, edicts[..|edicts| - 1], view, finishing);
      ShownFromModels(p, edicts[..|edicts| - 1], view, finishing);
      var ed := edicts[|edicts| - 1];
      if !q.failed {
        var q' := Started(q, ed, view, finishing);
        assert Run(p, edicts, view, finishing) == Shows(q', ed, view);
        assert q'.shown == q.shown && q'.rotating == q.rotating;
        var r := Shows(q', ed, view);
        if ed.model in view && LoadEntityOf(view[ed.model], ed.frame).Ok? {
          var go := r.shown[|r.shown| - 1];
          assert r.shown == q.shown + [go];
          assert r.rotating == q.rotating || r.rotating == q.rotating + [go];
        } else {
          assert r.rotating == q.rotating;
          assert forall g | g in q.shown :: g in r.shown;
        }
      }
    }
  }

  /** The loop makes at most one game object per entity, and it stops at the first
      object whose frame could not be loaded: that object is the last one made. */
  lemma {:induction false} StopsAtFailure(p: Progress, edicts: seq<Edict>, view: map<string, ModelView>,
                                          finishing: set<string>)
    requires p.shown == [] && !p.failed
    ensures var q := Run(p, edicts, view, finishing);
            |q.shown| <= |edicts| && (forall i | 0 <= i < |q.shown| - 1 :: q.shown[i].shown.Some?) &&
            (q.failed <==> q.shown != [] && q.shown[|q.shown| - 1].shown.None?)
    decreases |edicts|
  {
    if edicts != [] {
      var q := Run(p, edicts[..|edicts| - 1], view, finishing);
      StopsAtFailure(p, edicts[..|edicts| - 1], view, finishing);
      if !q.failed {
        var ed := edicts[|edicts| - 1];
        assert Run(p, edicts, view, finishing) == Shows(Started(q, ed, view, finishing), ed, view);
        assert forall i | 0 <= i < |q.shown| :: q.shown[i].shown.Some?;
      }
    }
  }

  /** A `QModel` as downloaded, with the meshes and materials `ImportMeshes` adds. */
  class QModel {
    var frames: seq<QFrame>
    var uvs: seq<UV>
    var faces: seq<Face>
    var texturenames: seq<string>
    var autorotate: int
    var flags: bv32
    var palette: seq<Color>
    var meshes: seq<MeshData>
    var materials: seq<Material>

    /** A model fresh from its download: no meshes or materials yet. */
    constructor (frames: seq<QFrame>, uvs: seq<UV>, faces: seq<Face>, texturenames: seq<string>,
                 autorotate: int, flags: bv32, palette: seq<Color>)
      ensures this.frames == frames && this.uvs == uvs && this.faces == faces
      ensures this.texturenames == texturenames && this.autorotate == autorotate
      ensures this.flags == flags && this.palette == palette
      ensures meshes == [] && materials == []
    {
      this.frames := frames;
      this.uvs := uvs;
      this.faces := faces;
      this.texturenames := texturenames;
      this.autorotate := autorotate;
      this.flags := flags;
      this.palette := palette;
      meshes := [];
      materials := [];
    }

    /** What the entity loop sees of this model. */
    function View(): (r: ModelView)
      reads this
    {
      ModelView(meshes, materials, autorotate)
    }
  }

  /** What the entity loop sees of the models of `ms`. */
  ghost function ViewsOf(ms: map<string, QModel>): (v: map<string, ModelView>)
    reads ms.Values
    ensures v.Keys == ms.Keys
    ensures forall k | k in ms :: v[k] == ms[k].View()
  {
    map k | k in ms :: ms[k].View()
  }

  /** Importing one model adds its view and leaves the others. */
  lemma ViewsOfAdded(ms: map<string, QModel>, name: string, model: QModel)
    ensures ViewsOf(ms[name := model]) == ViewsOf(ms)[name := model.View()]
  {
  }

  /** Models left as they were keep their views. */
  twostate lemma ViewsKept(ms: map<string, QModel>)
    requires forall m | m in ms.Values :: unchanged(m)
    ensures ViewsOf(ms) == old(ViewsOf(ms))
  {
  }

  /** `LoadEntity(go, model, frameindex)`. */
  function LoadEntity(model: QModel, frameindex: int): (r: Result<Shown>)
    reads model
    ensures r.Ok? <==> 0 <= frameindex < |model.meshes|
    ensures r.Ok? ==> r.value.mesh == model.meshes[frameindex] && r.value.materials == model.materials
  {
    LoadEntityOf(model.View(), frameindex)
  }

  class NetworkImporter {
    /** `level_info.level`, the name of the world model. */
    var level: string
    var models: map<string, QModel>
    var modelsImporting: map<string, bool>
    var materials: map<string, Material>
    /** `lightstyles`, the same array as `level_info.lightstyles`. */
    var lightstyles: array<string>
    /** The game objects made for the latest snapshot. */
    var meshes: seq<Placed>
    var autorotating: seq<Placed>
    /** The imports started, in order; each runs later as a coroutine. */
    var importQueue: seq<string>

    /** Every imported model's import has finished, and every import started is
        recorded as importing or finished. */
    predicate Valid()
      reads this
    {
      (forall k | k in models :: k in modelsImporting && !modelsImporting[k]) &&
      (forall k | k in importQueue :: k in modelsImporting)
    }

    /** The state `GetHelloWorld` sets up before importing the level. */
    constructor (level: string, lightstyles: array<string>)
      ensures Valid()
      ensures this.level == level && this.lightstyles == lightstyles
      ensures models == map[] && modelsImporting == map[] && materials == map[]
      ensures meshes == [] && autorotating == [] && importQueue == []
    {
      this.level := level;
      this.lightstyles := lightstyles;
      models := map[];
      modelsImporting := map[];
      materials := map[];
      meshes := [];
      autorotating := [];
      importQueue := [];
    }

    /** What the entity loop sees of the imported models. */
    ghost function Views(): (v: map<string, ModelView>)
      reads this`models, models.Values
      ensures v.Keys == models.Keys
      ensures forall k | k in models :: v[k] == models[k].View()
    {
      ViewsOf(models)
    }

    /** `IsVaryingLightLevel(style)`: a style varies when its string has more than one
        level, and every style from 32 on may be changed by a snapshot. */
    function IsVaryingLightLevel(style: int): (r: Result<bool>)
      reads this, lightstyles
      ensures r.Ok? <==> 0 <= style < lightstyles.Length
      ensures r.Ok? && style >= 32 ==> r.value
      ensures r.Ok? && style < 32 ==> (r.value <==> |lightstyles[style]| > 1)
    {
      if 0 <= style < lightstyles.Length then Ok(|lightstyles[style]| > 1 || style >= 32)
      else Err(IndexError)
    }

    /** The texture branches of `ImportTexture`. */
    method ImportMaterial(tex: MipTex, palette: seq<Color>) returns (r: Result<Material>)
      ensures r == MaterialOf(tex, palette)
    {
      if tex.effect == "sky" {
        var halves := ImportSky(palette, tex.data, tex.width, tex.height);
        if halves.Err? {
          return Err(halves.error);
        }
        return Ok(SkyMaterial(halves.value.0, halves.value.1));
      }
      var whole := ImportSingleTexture(palette, tex.data, tex.width, tex.height, tex.width, 0);
      if whole.Err? {
        return Err(whole.error);
      }
      if tex.effect == "water" {
        return Ok(WaterMaterial(whole.value.0));
      }
      return Ok(WorldMaterial(whole.value.0));
    }

    /** `ImportTexture(texture_name, palette)`: a texture is imported once; later
        imports of the same name keep the first material. */
    method ImportTexture(name: string, tex: MipTex, palette: seq<Color>) returns (r: Result<()>)
      modifies this`materials
      ensures name in old(materials) ==> r.Ok? && materials == old(materials)
      ensures name !in old(materials) ==>
                match MaterialOf(tex, palette)
                case Ok(m) => r.Ok? && materials == old(materials)[name := m]
                case Err(e) => r == Err(e) && materials == old(materials)
    {
      if name !in materials {
        var mat := ImportMaterial(tex, palette);
        if mat.Err? {
          return Err(mat.error);
        }
        materials := materials[name := mat.value];
      }
      return Ok(());
    }

    /** `ImportMeshes(model)`: one mesh per frame, then the materials of the model's
        textures in their order. */
    method ImportMeshes(model: QModel) returns (r: Result<()>)
      modifies model`meshes, model`materials
      ensures var ms := MeshesOf(model.frames, model.uvs, model.faces, |model.texturenames|,
                                 |model.frames|);
              var mats := MaterialsOf(model.texturenames, materials);
              (ms.Err? ==> r == Err(ms.error) && unchanged(model)) &&
              (ms.Ok? ==> model.meshes == ms.value &&
                          (mats.Err? ==> r == Err(mats.error) && model.materials == old(model.materials)) &&
                          (mats.Ok? ==> r.Ok? && model.materials == mats.value))
    {
      var built: seq<MeshData> := [];
      var i := 0;
      while i < |model.frames|
        invariant 0 <= i <= |model.frames|
        invariant unchanged(model)
        invariant MeshesOf(model.frames, model.uvs, model.faces, |model.texturenames|, i) == Ok(built)
      {
        var mesh := ImportMesh(model.frames, model.uvs, model.faces, |model.texturenames|, i);
        if mesh.Err? {
          MeshesErrStays(model.frames, model.uvs, model.faces, |model.texturenames|, i + 1, |model.frames|);
          return Err(mesh.error);
        }
        built := built + [mesh.value];
        i := i + 1;
      }
      model.meshes := built;

      var mat: seq<Material> := [];
      i := 0;
      while i < |model.texturenames|
        invariant 0 <= i <= |model.texturenames|
        invariant model.materials == old(model.materials)
        invariant MaterialsOf(model.texturenames[..i], materials) == Ok(mat)
      {
        var name := model.texturenames[i];
        assert model.texturenames[..i + 1][..i] == model.texturenames[..i];
        if name !in materials {
          MaterialsErrStays(model.texturenames, materials, i + 1);
          return Err(KeyError);
        }
        mat := mat + [materials[name]];
        i := i + 1;
      }
      assert model.texturenames[..i] == model.texturenames;
      model.materials := mat;
      return Ok(());
    }

    /** The palette `ImportModel` expands a model's textures with: the model's own, or
        the world model's when it has none (a KeyError when the world is not imported). */
    function PaletteFor(model: QModel): (r: Result<seq<Color>>)
      reads this, model, models.Values
      ensures |model.palette| > 0 ==> r == Ok(model.palette)
      ensures |model.palette| == 0 ==> (r.Ok? <==> level in models)
      ensures |model.palette| == 0 && r.Ok? ==> r.value == models[level].palette
    {
      if |model.palette| > 0 then Ok(model.palette)
      else if level in models then Ok(models[level].palette)
      else Err(KeyError)
    }

    /** The texture loop of `ImportModel`: `ImportTexture` of each name in turn, through
        `palette`, stopping at the first failure. */
    method ImportTextures(names: seq<string>, download: string -> MipTex, palette: seq<Color>)
      returns (r: Result<()>)
      modifies this`materials
      ensures var t := ImportedTextures(names, download, palette, old(materials));
              materials == t.materials && r == t.outcome
    {
      var i := 0;
      while i < |names|
        invariant 0 <= i <= |names|
        invariant ImportedTextures(names[i..], download, palette, materials) ==
                  ImportedTextures(names, download, palette, old(materials))
      {
        var tn := names[i];
        assert names[i..][1..] == names[i + 1..];
        r := ImportTexture(tn, download(tn), palette);
        if r.Err? {
          return;
        }
        i := i + 1;
      }
      r := Ok(());
    }

    /** `ImportModel(model_name)` once the model and its textures have arrived
        (`download` gives each texture by name): a model not imported before gets its
        textures, expanded through the palette `PaletteFor` gives, and its meshes; in every case its import is
        then marked finished. */
    method ImportModel(name: string, model: QModel, download: string -> MipTex) returns (r: Result<()>)
      requires Valid()
      modifies this`models, this`modelsImporting, this`materials, model`meshes, model`materials
      ensures Valid()
      ensures name in old(models) ==>
                r.Ok? && models == old(models) && materials == old(materials) &&
                modelsImporting == old(modelsImporting)[name := false] && unchanged(model)
      ensures name !in old(models) && r.Ok? ==>
                models == old(models)[name := model] && modelsImporting == old(modelsImporting)[name := false] &&
                ImportedFrom(model, materials)
      ensures name !in old(models) ==>
                match old(PaletteFor(model))
                case Err(e) => r == Err(e) && materials == old(materials) && unchanged(model)
                case Ok(palette) =>
                  var t := ImportedTextures(model.texturenames, download, palette, old(materials));
                  materials == t.materials &&
                  (t.outcome.Err? ==> r == t.outcome && unchanged(model)) &&
                  (t.outcome.Ok? ==>
                     var ms := MeshesOf(model.frames, model.uvs, model.faces, |model.texturenames|, |model.frames|);
                     (ms.Err? ==> r == Err(ms.error) && unchanged(model)) &&
                     (ms.Ok? ==> r.Ok?))
      ensures forall k | k in materials && k !in old(materials) ::
                old(PaletteFor(model)).Ok? && k in model.texturenames &&
                MaterialOf(download(k), old(PaletteFor(model)).value) == Ok(materials[k])
      ensures r.Err? ==> models == old(models) && modelsImporting == old(modelsImporting)
      ensures Keeps(old(materials), materials)
    {
      if name !in models {
        var palette := model.palette;
        if |palette| == 0 {
          if level !in models {
            return Err(KeyError);
          }
          palette := models[level].palette;
        }
        var t := ImportTextures(model.texturenames, download, palette);
        if t.Err? {
          return t;
        }
        MaterialsInOrder(model.texturenames, materials);
        var m := ImportMeshes(model);
        if m.Err? {
          return Err(m.error);
        }
        models := models[name := model];
      }
      modelsImporting := modelsImporting[name := false];
      r := Ok(());
    }

    /** The light-style loop of `NetworkUpdateData`: `ls32[i]` replaces style `32 + i`;
        a style past the end of the table stops it. */
    method UpdateLightStyles(ls32: seq<string>) returns (ok: bool)
      modifies lightstyles
      ensures ok <==> |ls32| == 0 || 32 + |ls32| <= lightstyles.Length
      ensures forall j | 0 <= j < lightstyles.Length ::
                lightstyles[j] == if 32 <= j < 32 + |ls32| then ls32[j - 32] else old(lightstyles[j])
    {
      var i := 0;
      while i < |ls32|
        invariant 0 <= i <= |ls32|
        invariant i > 0 ==> 32 + i <= lightstyles.Length
        invariant forall j | 0 <= j < lightstyles.Length ::
                    lightstyles[j] == if 32 <= j < 32 + i then ls32[j - 32] else old(lightstyles[j])
      {
        if 32 + i >= lightstyles.Length {
          return false;
        }
        lightstyles[32 + i] := ls32[i];
        i := i + 1;
      }
      ok := true;
    }

    /** The importer's state is the state `q` of the entity loop. */
    ghost predicate At(q: Progress)
      reads this
    {
      modelsImporting == q.importing && importQueue == q.queue && meshes == q.shown && autorotating == q.rotating
    }

    /** The models downloaded for imports that finish at once are distinct objects,
        and none of a name not yet started is an imported model. */
    predicate Unshared(downloaded: map<string, QModel>)
      reads this
    {
      (forall a, b | a in downloaded && b in downloaded && a != b :: downloaded[a] != downloaded[b]) &&
      (forall n | n in downloaded && n !in modelsImporting :: downloaded[n] !in models.Values)
    }

    /** The start of an entity's turn, as `Started` describes it against the models
        imported afterwards: an import that finishes at once runs `ImportModel` on the
        model `downloaded` holds for it, which is the only model that can appear. */
    method StartImport(ed: Edict, downloaded: map<string, QModel>, download: string -> MipTex)
      requires Valid() && Unshared(downloaded)
      modifies this`modelsImporting, this`importQueue, this`models, this`materials,
               set n | n in downloaded :: downloaded[n]
      ensures Valid() && Unshared(downloaded)
      ensures Progress(modelsImporting, importQueue, meshes, autorotating, false) ==
              Started(Progress(old(modelsImporting), old(importQueue), meshes, autorotating, false),
                      ed, Views(), downloaded.Keys)
      ensures Extends(old(Views()), Views())
      ensures AddsOnly(old(Views()), Views(), ed.model, old(modelsImporting))
      ensures Keeps(old(materials), materials)
      ensures ed.model in models && ed.model !in old(models) ==>
                models[ed.model] == downloaded[ed.model] && ImportedFrom(downloaded[ed.model], materials)
    {
      if ed.model !in modelsImporting {
        if ed.model in downloaded {
          ImportAtOnce(ed.model, downloaded, download);
        } else {
          modelsImporting := modelsImporting[ed.model := true];
          importQueue := importQueue + [ed.model];
        }
      }
    }

    /** An import started for a model whose files are all at hand: `ImportModel` runs to
        its end on the model `downloaded` holds, and the model stays marked as importing
        only when the import failed. */
    method ImportAtOnce(name: string, downloaded: map<string, QModel>, download: string -> MipTex)
      requires Valid() && Unshared(downloaded)
      requires name in downloaded && name !in modelsImporting
      modifies this`modelsImporting, this`models, this`materials, downloaded[name]
      ensures Valid() && Unshared(downloaded)
      ensures name in models ==> modelsImporting == old(modelsImporting)[name := false]
      ensures name !in models ==> modelsImporting == old(modelsImporting)[name := true]
      ensures models.Keys <= old(models.Keys) + {name}
      ensures Extends(old(Views()), Views())
      ensures AddsOnly(old(Views()), Views(), name, old(modelsImporting))
      ensures Keeps(old(materials), materials)
      ensures name in models ==> models[name] == downloaded[name] && ImportedFrom(downloaded[name], materials)
    {
      modelsImporting := modelsImporting[name := true];
      var model := downloaded[name];
      ghost var before := models;
      ghost var importing := modelsImporting;
      assert name !in before && model !in before.Values;
      var r := ImportModel(name, model, download);
      ViewsKept(before);
      if r.Ok? {
        assert models == before[name := model];
        UpdatedTwice(old(modelsImporting), name, true, false);
        ViewsOfAdded(before, name, model);
        ExtendsByAdding(ViewsOf(before), name, model.View());
      } else {
        assert models == before && modelsImporting == importing;
      }
    }

    /** The rest of an entity's turn, as `Shows` describes it. */
    method ShowEntity(ed: Edict) returns (failed: bool)
      modifies this`meshes, this`autorotating
      ensures Views() == old(Views())
      ensures Progress(modelsImporting, importQueue, meshes, autorotating, failed) ==
              Shows(Progress(modelsImporting, importQueue, old(meshes), old(autorotating), false), ed, Views())
    {
      failed := false;
      if ed.model in models {
        var model := models[ed.model];
        var go := Placed(ed.model, ed.origin, ed.angles, None);
        var shown := LoadEntity(model, ed.frame);
        if shown.Err? {
          meshes := meshes + [go];
          return true;
        }
        go := go.(shown := Some(shown.value));
        meshes := meshes + [go];
        if model.autorotate != 0 {
          autorotating := autorotating + [go];
        }
      }
    }

    /** One entity of a snapshot, as `Step` describes it against the models imported
        once the entity is done. */
    method PlaceEntity(ed: Edict, downloaded: map<string, QModel>, download: string -> MipTex)
      returns (failed: bool)
      requires Valid() && Unshared(downloaded)
      modifies this`meshes, this`autorotating, this`modelsImporting, this`importQueue,
               this`models, this`materials, set n | n in downloaded :: downloaded[n]
      ensures Valid() && Unshared(downloaded)
      ensures var q := Step(Progress(old(modelsImporting), old(importQueue), old(meshes),
                                     old(autorotating), false), ed, Views(), downloaded.Keys);
              At(q) && failed == q.failed
      ensures Extends(old(Views()), Views())
      ensures AddsOnly(old(Views()), Views(), ed.model, old(modelsImporting))
      ensures Keeps(old(materials), materials)
    {
      ghost var p0 := Progress(modelsImporting, importQueue, meshes, autorotating, false);
      StartImport(ed, downloaded, download);
      ghost var p1 := Progress(modelsImporting, importQueue, meshes, autorotating, false);
      ghost var views := Views();
      failed := ShowEntity(ed);
      assert p1 == Started(p0, ed, views, downloaded.Keys);
    }

    /** The entity loop of `NetworkUpdateData`, as `Run` describes it against the
        models imported once the loop is over. */
    method PlaceEntities(edicts: seq<Edict>, downloaded: map<string, QModel>, download: string -> MipTex)
      returns (r: Result<()>)
      requires Valid() && Unshared(downloaded)
      modifies this`meshes, this`autorotating, this`modelsImporting, this`importQueue,
               this`models, this`materials, set n | n in downloaded :: downloaded[n]
      ensures Valid()
      ensures var q := Run(Progress(old(modelsImporting), old(importQueue), old(meshes), old(autorotating), false),
                           edicts, Views(), downloaded.Keys);
              At(q) && (r.Ok? <==> !q.failed)
      ensures Extends(old(Views()), Views())
      ensures Keeps(old(materials), materials)
    {
      ghost var start := Progress(modelsImporting, importQueue, meshes, autorotating, false);
      ghost var views0 := Views();
      ghost var materials0 := materials;
      var k := 0;
      while k < |edicts|
        invariant 0 <= k <= |edicts|
        invariant Valid() && Unshared(downloaded)
        invariant !Run(start, edicts[..k], Views(), downloaded.Keys).failed
        invariant At(Run(start, edicts[..k], Views(), downloaded.Keys))
        invariant Extends(views0, Views())
        invariant Keeps(materials0, materials)
      {
        ghost var views := Views();
        var failed := PlaceEntity(edicts[k], downloaded, download);
        RunCongruent(start, edicts[..k], views, Views(), downloaded.Keys);
        RunPrefix(start, edicts, k, Views(), downloaded.Keys);
        if failed {
          RunStops(start, edicts, k + 1, Views(), downloaded.Keys);
          return Err(IndexError);
        }
        k := k + 1;
      }
      assert edicts[..k] == edicts;
      r := Ok(());
    }

    /** `NetworkUpdateData(msg)` on the decoded snapshot: the previous game objects are
        dropped, the light styles from 32 on are replaced, and the entity loop runs
        over the snapshot's entities. */
    method NetworkUpdateData(snap: Snapshot, downloaded: map<string, QModel>, download: string -> MipTex)
      returns (r: Result<()>)
      requires Valid() && Unshared(downloaded)
      modifies this`meshes, this`autorotating, this`modelsImporting, this`importQueue, lightstyles,
               this`models, this`materials, set n | n in downloaded :: downloaded[n]
      ensures Valid()
      ensures forall j | 0 <= j < lightstyles.Length ::
                lightstyles[j] == if 32 <= j < 32 + |snap.ls32| then snap.ls32[j - 32] else old(lightstyles[j])
      ensures forall style :: IsVaryingLightLevel(style) == old(IsVaryingLightLevel(style))
      ensures |snap.ls32| > 0 && 32 + |snap.ls32| > lightstyles.Length ==>
                r == Err(IndexError) && meshes == [] && autorotating == [] && models == old(models) &&
                modelsImporting == old(modelsImporting) && importQueue == old(importQueue)
      ensures |snap.ls32| == 0 || 32 + |snap.ls32| <= lightstyles.Length ==>
                var q := Run(Progress(old(modelsImporting), old(importQueue), [], [], false),
                             snap.edicts, Views(), downloaded.Keys);
                modelsImporting == q.importing && importQueue == q.queue &&
                meshes == q.shown && autorotating == q.rotating && (r.Ok? <==> !q.failed)
      ensures Extends(old(Views()), Views())
    {
      meshes := [];
      autorotating := [];
      var ok := UpdateLightStyles(snap.ls32);
      if !ok {
        return Err(IndexError);
      }
      r := PlaceEntities(snap.edicts, downloaded, download);
    }
  }

  /** Once the entity loop has failed, the remaining entities change nothing. */
  lemma {:induction false} RunStops(p: Progress, edicts: seq<Edict>, k: nat, view: map<string, ModelView>,
                                    finishing: set<string>)
    requires k <= |edicts| && Run(p, edicts[..k], view, finishing).failed
    ensures Run(p, edicts, view, finishing) == Run(p, edicts[..k], view, finishing)
    decreases |edicts| - k
  {
    if k < |edicts| {
      assert edicts[..k + 1][..k] == edicts[..k];
      RunStops(p, edicts, k + 1, view, finishing);
    } else {
      assert edicts[..k] == edicts;
    }
  }
}
