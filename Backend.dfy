/**
  The server: the `Tareas` and `Usuarios` tables and the six endpoint
  handlers that read and change them. Each request is one atomic step on
  the store; persistence, HTTP and the JSON encoding are not modelled here.
*/
module Backend {
  import opened Wrappers
  import opened Seqs
  import Dates

  /** A due date the server can hold: a `DateTime`, whose years start at 1. */
  type FechaServidor = d: Dates.CalendarDay | d.year >= 1 witness Dates.Date(1970, 1, 1)

  /** A row of `Tareas`. */
  datatype Tarea = Tarea(
    id: int,
    nombre: string,
    completada: bool,
    usuarioId: int,
    fechaVencimiento: Option<FechaServidor>)

  /** A row of `Usuarios`; `password` holds what was stored, i.e. the hash. */
  datatype Usuario = Usuario(id: int, nombreUsuario: string, password: string)

  /** The body of a successful login. */
  datatype LoginOk = LoginOk(mensaje: string, usuario: string, id: int)

  /** The HTTP results the handlers produce. */
  datatype Response<+T> = Ok(value: T) | NotFound | BadRequest(message: string) | Unauthorized

  // ----- the tables, as values -----

  /** The compound key every task lookup uses: the task id and its owner. */
  predicate EsDe(t: Tarea, id: int, usuarioId: int) {
    t.id == id && t.usuarioId == usuarioId
  }

  predicate ExisteTarea(ts: seq<Tarea>, id: int, usuarioId: int) {
    exists t :: t in ts && EsDe(t, id, usuarioId)
  }

  /** `Where(t => t.UsuarioId == usuarioId)`. */
  function TareasDe(ts: seq<Tarea>, usuarioId: int): (r: seq<Tarea>)
    ensures forall t :: t in r <==> t in ts && t.usuarioId == usuarioId
  {
    Filter(ts, (t: Tarea) => t.usuarioId == usuarioId)
  }

  /** `FirstOrDefault(t => t.Id == id && t.UsuarioId == usuarioId)`, as a position. */
  function BuscarTarea(ts: seq<Tarea>, id: int, usuarioId: int): (r: Option<nat>)
    ensures r.None? <==> !ExisteTarea(ts, id, usuarioId)
    ensures r.Some? ==> r.value < |ts| && EsDe(ts[r.value], id, usuarioId)
    ensures r.Some? ==> forall k :: 0 <= k < r.value ==> !EsDe(ts[k], id, usuarioId)
  {
    FirstIndex(ts, (t: Tarea) => EsDe(t, id, usuarioId))
  }

  /** The stored task after PUT: name and completion come from the body, everything else stays. */
  function Actualizada(guardada: Tarea, cuerpo: Tarea): (r: Tarea)
    ensures r.nombre == cuerpo.nombre && r.completada == cuerpo.completada
    ensures r.id == guardada.id && r.usuarioId == guardada.usuarioId
    ensures r.fechaVencimiento == guardada.fechaVencimiento
  {
    guardada.(nombre := cuerpo.nombre, completada := cuerpo.completada)
  }

  predicate IdsUnicos(ts: seq<Tarea>) {
    forall i, j :: 0 <= i < j < |ts| ==> ts[i].id != ts[j].id
  }

  predicate NombreTomado(us: seq<Usuario>, nombreUsuario: string) {
    exists u :: u in us && u.nombreUsuario == nombreUsuario
  }

  predicate NombresUnicos(us: seq<Usuario>) {
    forall i, j :: 0 <= i < j < |us| ==> us[i].nombreUsuario != us[j].nombreUsuario
  }

  predicate IdsUsuarioUnicos(us: seq<Usuario>) {
    forall i, j :: 0 <= i < j < |us| ==> us[i].id != us[j].id
  }

  /** The one thing the model knows about BCrypt: a password verifies against its own hash, whatever the salt. */
  ghost predicate HashVerifica(hashPassword: (string, int) -> string, verify: (string, string) -> bool) {
    forall p, salt :: verify(p, hashPassword(p, salt))
  }

  /** Some stored user has this name and the password verifies against that user's hash. */
  ghost predicate Autentica(us: seq<Usuario>, verify: (string, string) -> bool, nombreUsuario: string, password: string) {
    exists u :: u in us && u.nombreUsuario == nombreUsuario && verify(password, u.password)
  }

  // ----- properties of the tables -----

  /** Listing after a creation: the other owners see what they saw, the owner sees the new task last. */
  lemma TareasDeTrasCrear(ts: seq<Tarea>, t: Tarea, usuarioId: int)
    ensures TareasDe(ts + [t], usuarioId)
      == TareasDe(ts, usuarioId) + (if t.usuarioId == usuarioId then [t] else [])
  {
    FilterAppend(ts, [t], (x: Tarea) => x.usuarioId == usuarioId);
    assert [t][1..] == [];
  }

  /** A task's own id, asked for under another user's id, matches nothing. */
  lemma IdAjenoNoEncontrado(ts: seq<Tarea>, t: Tarea, usuarioId: int)
    requires IdsUnicos(ts) && t in ts && usuarioId != t.usuarioId
    ensures !ExisteTarea(ts, t.id, usuarioId)
  {
  }

  /** Removing the task at `i` from a table with unique ids removes exactly that task. */
  lemma QuitarEn(ts: seq<Tarea>, i: nat)
    requires IdsUnicos(ts) && i < |ts|
    ensures IdsUnicos(ts[..i] + ts[i + 1..])
    ensures forall t :: t in ts[..i] + ts[i + 1..] <==> t in ts && t.id != ts[i].id
  {
  }

  /** With unique ids, the task found by the compound key is the only one that has it. */
  lemma EncontradaUnica(ts: seq<Tarea>, id: int, usuarioId: int)
    requires IdsUnicos(ts) && BuscarTarea(ts, id, usuarioId).Some?
    ensures var i := BuscarTarea(ts, id, usuarioId).value;
      forall t :: t in ts ==> (EsDe(t, id, usuarioId) <==> t == ts[i])
  {
  }

  /** Once a name has been registered it is taken, so registering it again is refused. */
  lemma NombreTomadoTrasAlta(us: seq<Usuario>, u: Usuario)
    ensures NombreTomado(us + [u], u.nombreUsuario)
  {
  }

  /** A freshly registered user can log in with the password they registered. */
  lemma AutenticaTrasAlta(us: seq<Usuario>, hashPassword: (string, int) -> string,
                          verify: (string, string) -> bool, id: int, nombreUsuario: string,
                          password: string, salt: int)
    requires HashVerifica(hashPassword, verify)
    ensures Autentica(us + [Usuario(id, nombreUsuario, hashPassword(password, salt))],
                      verify, nombreUsuario, password)
  {
  }

  // ----- the store and its endpoints -----

  /** The database context: both tables, the identity counters and the password hashing service. */
  class AppDb {
    var tareas: seq<Tarea>
    var usuarios: seq<Usuario>
    /** The next identity value the database will assign. */
    var nextTareaId: int
    var nextUsuarioId: int
    const hashPassword: (string, int) -> string
    const verify: (string, string) -> bool

    ghost predicate Valid()
      reads this
    {
      && HashVerifica(hashPassword, verify)
      && IdsUnicos(tareas)
      && (forall t :: t in tareas ==> t.id < nextTareaId)
      && NombresUnicos(usuarios)
      && IdsUsuarioUnicos(usuarios)
      && (forall u :: u in usuarios ==> u.id < nextUsuarioId)
    }

    constructor (hashPassword: (string, int) -> string, verify: (string, string) -> bool)
      requires HashVerifica(hashPassword, verify)
      ensures Valid()
      ensures tareas == [] && usuarios == []
      ensures this.hashPassword == hashPassword && this.verify == verify
    {
      this.hashPassword := hashPassword;
      this.verify := verify;
      tareas := [];
      usuarios := [];
      nextTareaId := 1;
      nextUsuarioId := 1;
    }

    /** GET /tareas?usuarioId=…: the caller's tasks, in table order; nothing changes. */
    method GetTareas(usuarioId: int) returns (r: seq<Tarea>)
      ensures forall t :: t in r <==> t in tareas && t.usuarioId == usuarioId
      ensures IsSubsequence(r, tareas)
    {
      r := TareasDe(tareas, usuarioId);
      FilterIsSubsequence(tareas, (t: Tarea) => t.usuarioId == usuarioId);
    }

    /** POST /tareas: stores the posted task under a fresh identity and returns it. */
    method PostTarea(nuevaTarea: Tarea) returns (res: Response<Tarea>)
      requires Valid()
      modifies this
      ensures Valid()
      ensures var creada := nuevaTarea.(id := old(nextTareaId));
        res == Ok(creada) && tareas == old(tareas) + [creada]
      ensures nextTareaId == old(nextTareaId) + 1
      ensures usuarios == old(usuarios) && nextUsuarioId == old(nextUsuarioId)
    {
      var creada := nuevaTarea.(id := nextTareaId);
      tareas := tareas + [creada];
      nextTareaId := nextTareaId + 1;
      res := Ok(creada);
    }

    /** PUT /tareas/{id}?usuarioId=…: overwrites name and completion of the caller's task. */
    method PutTarea(id: int, usuarioId: int, tareaActualizada: Tarea) returns (res: Response<Tarea>)
      requires Valid()
      modifies this
      ensures Valid()
      ensures res.NotFound? <==> !ExisteTarea(old(tareas), id, usuarioId)
      ensures match BuscarTarea(old(tareas), id, usuarioId)
        case None => res == NotFound && tareas == old(tareas)
        case Some(i) =>
          var nueva := Actualizada(old(tareas)[i], tareaActualizada);
          res == Ok(nueva) && tareas == old(tareas)[i := nueva]
      ensures usuarios == old(usuarios)
      ensures nextTareaId == old(nextTareaId) && nextUsuarioId == old(nextUsuarioId)
    {
      var encontrada := BuscarTarea(tareas, id, usuarioId);
      if encontrada.None? {
        return NotFound;
      }
      var i := encontrada.value;
      var nueva := Actualizada(tareas[i], tareaActualizada);
      tareas := tareas[i := nueva];
      res := Ok(nueva);
    }

    /** DELETE /tareas/{id}?usuarioId=…: removes the caller's task. */
    method DeleteTarea(id: int, usuarioId: int) returns (res: Response<string>)
      requires Valid()
      modifies this
      ensures Valid()
      ensures res.NotFound? <==> !ExisteTarea(old(tareas), id, usuarioId)
      ensures match BuscarTarea(old(tareas), id, usuarioId)
        case None => res == NotFound && tareas == old(tareas)
        case Some(i) => res == Ok("Eliminado") && tareas == old(tareas)[..i] + old(tareas)[i + 1..]
      ensures forall t :: t in tareas <==> t in old(tareas) && !EsDe(t, id, usuarioId)
      ensures usuarios == old(usuarios)
      ensures nextTareaId == old(nextTareaId) && nextUsuarioId == old(nextUsuarioId)
    {
      var encontrada := BuscarTarea(tareas, id, usuarioId);
      if encontrada.None? {
        return NotFound;
      }
      var i := encontrada.value;
      QuitarEn(tareas, i);
      EncontradaUnica(tareas, id, usuarioId);
      tareas := tareas[..i] + tareas[i + 1..];
      res := Ok("Eliminado");
    }

    /** POST /login: unknown name and wrong password give the same Unauthorized; nothing changes. */
    method Login(nombreUsuario: string, password: string) returns (res: Response<LoginOk>)
      requires Valid()
      ensures res.Ok? <==> Autentica(usuarios, verify, nombreUsuario, password)
      ensures !res.Ok? ==> res == Unauthorized
      ensures res.Ok? ==>
        exists u :: u in usuarios && u.nombreUsuario == nombreUsuario && verify(password, u.password)
                    && res.value == LoginOk("Login exitoso", u.nombreUsuario, u.id)
    {
      var encontrado := FirstIndex(usuarios, (u: Usuario) => u.nombreUsuario == nombreUsuario);
      if encontrado.None? {
        return Unauthorized;
      }
      var usuario := usuarios[encontrado.value];
      var passOK := verify(password, usuario.password);
      if passOK {
        res := Ok(LoginOk("Login exitoso", usuario.nombreUsuario, usuario.id));
      } else {
        var i := encontrado.value;
        forall k | 0 <= k < |usuarios| && k != i
          ensures usuarios[k].nombreUsuario != usuario.nombreUsuario
        {
          if k < i {
            assert usuarios[k].nombreUsuario != usuarios[i].nombreUsuario;
          } else {
            assert usuarios[i].nombreUsuario != usuarios[k].nombreUsuario;
          }
        }
        res := Unauthorized;
      }
    }

    /** POST /registro: refuses a taken name, otherwise stores the name with the password's hash. */
    method Registro(nombreUsuario: string, password: string, salt: int) returns (res: Response<string>)
      requires Valid()
      modifies this
      ensures Valid()
      ensures NombreTomado(old(usuarios), nombreUsuario) ==>
        res == BadRequest("El usuario existe") && usuarios == old(usuarios)
        && nextUsuarioId == old(nextUsuarioId)
      ensures !NombreTomado(old(usuarios), nombreUsuario) ==>
        res == Ok("Usuario creado")
        && usuarios == old(usuarios) + [Usuario(old(nextUsuarioId), nombreUsuario, hashPassword(password, salt))]
        && nextUsuarioId == old(nextUsuarioId) + 1
      ensures tareas == old(tareas) && nextTareaId == old(nextTareaId)
    {
      if NombreTomado(usuarios, nombreUsuario) {
        return BadRequest("El usuario existe");
      }
      var hash := hashPassword(password, salt);
      var nuevo := Usuario(nextUsuarioId, nombreUsuario, hash);
      usuarios := usuarios + [nuevo];
      nextUsuarioId := nextUsuarioId + 1;
      res := Ok("Usuario creado");
    }
  }

  /**
    A client of the user endpoints: a registration, a refused duplicate, and
    logins that fail and succeed. The stand-in hash only has to verify its
    own output.
  */
  method EscenarioAltaYLogin()
  {
    var db := new AppDb((p: string, salt: int) => "#" + p, (p: string, h: string) => h == "#" + p);

    var alta := db.Registro("ana", "secreta", 7);
    assert alta == Ok("Usuario creado");
    var ana := db.usuarios[0];
    assert ana in db.usuarios;
    var repetida := db.Registro("ana", "otra", 8);
    assert repetida == BadRequest("El usuario existe");

    var mala := db.Login("ana", "otra");
    assert mala == Unauthorized;
    var desconocido := db.Login("carla", "secreta");
    assert !NombreTomado(db.usuarios, "carla");
    assert desconocido == Unauthorized;
    assert ana in db.usuarios;
    var login := db.Login("ana", "secreta");
    assert login.Ok? && login.value.id == ana.id;
  }

  /** A client of the task endpoints: two owners, one task followed from creation to deletion. */
  method EscenarioTareas(ana: int, bruno: int)
    requires ana != bruno
  {
    var db := new AppDb((p: string, salt: int) => "#" + p, (p: string, h: string) => h == "#" + p);

    var creada := db.PostTarea(Tarea(0, "Comprar leche", false, ana, None));
    var deAna := db.GetTareas(ana);
    assert deAna == [creada.value];
    var deBruno := db.GetTareas(bruno);
    assert deBruno == [];

    var ajena := db.DeleteTarea(creada.value.id, bruno);
    assert ajena == NotFound;
    var borrada := db.DeleteTarea(creada.value.id, ana);
    assert borrada == Ok("Eliminado");
    var vacia := db.GetTareas(ana);
    assert vacia == [];
  }
}
