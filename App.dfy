/**
  The client's task logic: building a new task from the input fields,
  flipping a task's completion, and the filter that decides which of the
  loaded tasks are shown. The network calls and React state are not
  modelled; "today" is a parameter.
*/
module App {
  import opened Wrappers
  import opened Seqs
  import Dates

  /** A task as the client holds it; the due date is the text the server sent. */
  datatype Tarea = Tarea(id: int, nombre: string, completada: bool, fechaVencimiento: Option<string>)

  /** The logged-in user. */
  datatype Sesion = Sesion(nombre: string, id: int)

  /** The body the client posts to create a task. */
  datatype NuevaTarea = NuevaTarea(nombre: string, completada: bool, usuarioId: int, fechaVencimiento: Option<string>)

  /** JavaScript truthiness of an optional string: absent, null and "" are falsy. */
  predicate Truthy(s: Option<string>) {
    s.Some? && s.value != ""
  }

  /** `s.substring(0, n)`: the first `n` characters, or all of a shorter string. */
  function Substring(s: string, n: nat): (r: string)
    ensures |r| == if |s| < n then |s| else n
    ensures r == s[..|r|]
  {
    if |s| <= n then s else s[..n]
  }

  // ----- crearTarea -----

  /**
    The task `crearTarea` posts, or None when it returns without posting
    (empty text, or nobody logged in). An empty date input means no due date.
  */
  function CrearTarea(nuevoTexto: string, nuevaFecha: string, usuarioLogueado: Option<Sesion>): (r: Option<NuevaTarea>)
    ensures r.None? <==> nuevoTexto == "" || usuarioLogueado.None?
    ensures r.Some? ==> r.value.nombre == nuevoTexto && !r.value.completada
                        && r.value.usuarioId == usuarioLogueado.value.id
    ensures r.Some? ==> (r.value.fechaVencimiento.None? <==> nuevaFecha == "")
    ensures r.Some? && nuevaFecha != "" ==> r.value.fechaVencimiento == Some(nuevaFecha)
  {
    if nuevoTexto == "" then None
    else if usuarioLogueado.None? then None
    else Some(NuevaTarea(nuevoTexto, false, usuarioLogueado.value.id,
                         if nuevaFecha != "" then Some(nuevaFecha) else None))
  }

  // ----- toggleTarea -----

  /** The record `toggleTarea` sends: the same task with its completion flipped. */
  function ToggleTarea(t: Tarea): (r: Tarea)
    ensures r.completada == !t.completada
    ensures r.id == t.id && r.nombre == t.nombre && r.fechaVencimiento == t.fechaVencimiento
  {
    t.(completada := !t.completada)
  }

  lemma ToggleInvolutivo(t: Tarea)
    ensures ToggleTarea(ToggleTarea(t)) == t
  {
  }

  // ----- the filter -----

  /**
    The predicate passed to `tareas.filter`. 'todos' and every string it does
    not recognise keep the task; 'vencidas' compares the local midnight of the
    first ten characters of the due date with today's midnight.
  */
  function PasaFiltro(t: Tarea, filtro: string, hoy: Dates.CalendarDay): (r: bool)
    ensures filtro != "completadas" && filtro != "pendientes" && filtro != "vencidas" ==> r
    ensures filtro == "vencidas" && r ==> Truthy(t.fechaVencimiento) && !t.completada
  {
    if filtro == "todos" then true
    else if filtro == "completadas" then t.completada
    else if filtro == "pendientes" then !t.completada
    else if filtro == "vencidas" then
      if !Truthy(t.fechaVencimiento) then false
      else
        var fechaLimpia := Substring(t.fechaVencimiento.value, 10);
        match Dates.ParseIsoDateTime(fechaLimpia + "T00:00:00")
        case None => false  // an Invalid Date compares false with anything
        case Some(fechaTarea) => Dates.Before(fechaTarea, hoy) && !t.completada
    else true
  }

  /** `tareasFiltradas`. */
  function TareasFiltradas(tareas: seq<Tarea>, filtro: string, hoy: Dates.CalendarDay): (r: seq<Tarea>)
    ensures forall t :: t in r <==> t in tareas && PasaFiltro(t, filtro, hoy)
    ensures |r| <= |tareas|
  {
    Filter(tareas, (t: Tarea) => PasaFiltro(t, filtro, hoy))
  }

  /**
    Reference meaning of "overdue" for the filter: the due text begins with
    a calendar day earlier than today, and the task is not done.
  */
  ghost predicate VencidaSegunTexto(t: Tarea, hoy: Dates.CalendarDay) {
    && !t.completada
    && t.fechaVencimiento.Some?
    && |t.fechaVencimiento.value| >= 10
    && exists d: Dates.CalendarDay ::
         Dates.ParseIsoDate(t.fechaVencimiento.value[..10]) == Some(d) && Dates.Before(d, hoy)
  }

  /** Appending "T00:00:00" to the first ten characters reads the date in those ten characters, if there are ten. */
  lemma FechaLimpia(s: string)
    ensures Dates.ParseIsoDateTime(Substring(s, 10) + "T00:00:00")
         == if |s| >= 10 then Dates.ParseIsoDate(s[..10]) else None
  {
    var c := Substring(s, 10) + "T00:00:00";
    if |s| >= 10 {
      assert c[..10] == s[..10] && c[10..] == "T00:00:00";
      Dates.MidnightIsIsoTime();
    } else if |c| >= 10 {
      // the 'T' falls inside the first ten characters, where only digits and '-' may stand
      assert c[..10][|s|] == 'T';
      assert !Dates.IsoShape(c[..10]);
    }
  }

  lemma PasaFiltroVencidas(t: Tarea, hoy: Dates.CalendarDay)
    ensures PasaFiltro(t, "vencidas", hoy) <==> VencidaSegunTexto(t, hoy)
  {
    if t.fechaVencimiento.Some? {
      FechaLimpia(t.fechaVencimiento.value);
    }
  }

  /** 'todos', and any text that is not one of the three other filter names (such as the initial 'todas'), shows every task. */
  lemma FiltroSinEfecto(tareas: seq<Tarea>, filtro: string, hoy: Dates.CalendarDay)
    requires filtro != "completadas" && filtro != "pendientes" && filtro != "vencidas"
    ensures TareasFiltradas(tareas, filtro, hoy) == tareas
  {
    FilterKeepsAll(tareas, (t: Tarea) => PasaFiltro(t, filtro, hoy));
  }

  /** 'completadas' shows exactly the done tasks and 'pendientes' exactly the others; together they are the whole list. */
  lemma FiltrosDeEstado(tareas: seq<Tarea>, hoy: Dates.CalendarDay)
    ensures forall t :: t in TareasFiltradas(tareas, "completadas", hoy) <==> t in tareas && t.completada
    ensures forall t :: t in TareasFiltradas(tareas, "pendientes", hoy) <==> t in tareas && !t.completada
    ensures multiset(TareasFiltradas(tareas, "completadas", hoy))
          + multiset(TareasFiltradas(tareas, "pendientes", hoy)) == multiset(tareas)
  {
    FilterPartition(tareas, (t: Tarea) => PasaFiltro(t, "completadas", hoy),
                            (t: Tarea) => PasaFiltro(t, "pendientes", hoy));
  }

  /** 'vencidas' shows exactly the undone tasks whose due date is before today. */
  lemma FiltroVencidas(tareas: seq<Tarea>, hoy: Dates.CalendarDay)
    ensures forall t :: t in TareasFiltradas(tareas, "vencidas", hoy) <==> t in tareas && VencidaSegunTexto(t, hoy)
  {
    forall t ensures PasaFiltro(t, "vencidas", hoy) <==> VencidaSegunTexto(t, hoy) {
      PasaFiltroVencidas(t, hoy);
    }
  }

  /** Every filter keeps tasks in the order they were loaded, dropping some. */
  lemma FiltroEsSubsecuencia(tareas: seq<Tarea>, filtro: string, hoy: Dates.CalendarDay)
    ensures IsSubsequence(TareasFiltradas(tareas, filtro, hoy), tareas)
  {
    FilterIsSubsequence(tareas, (t: Tarea) => PasaFiltro(t, filtro, hoy));
  }

  /** Toggling moves a task between the 'completadas' and 'pendientes' views. */
  lemma ToggleCambiaDeVista(t: Tarea, hoy: Dates.CalendarDay)
    ensures PasaFiltro(ToggleTarea(t), "completadas", hoy) == PasaFiltro(t, "pendientes", hoy)
    ensures PasaFiltro(ToggleTarea(t), "pendientes", hoy) == PasaFiltro(t, "completadas", hoy)
  {
  }
}
