/**
  The JSON boundary between the server and the client: how a stored task
  reaches the client (the due date as "YYYY-MM-DDT00:00:00") and how a body
  the client sends is bound to a server-side `Tarea`. The lemmas here follow
  one task across that boundary.
*/
module Wire {
  import opened Wrappers
  import Dates
  import Backend
  import App
  import TaskCard

  /** The text the server writes for a stored due date: local midnight, no offset. */
  function FechaJson(d: Dates.CalendarDay): string {
    Dates.FormatIsoDate(d) + "T00:00:00"
  }

  /** A stored task as the client receives it from GET /tareas. */
  function AlCliente(t: Backend.Tarea): (r: App.Tarea)
    ensures r.id == t.id && r.nombre == t.nombre && r.completada == t.completada
    ensures App.Truthy(r.fechaVencimiento) <==> t.fechaVencimiento.Some?
    ensures r.fechaVencimiento.Some? ==> |r.fechaVencimiento.value| == 19
  {
    App.Tarea(t.id, t.nombre, t.completada,
              match t.fechaVencimiento
              case None => None
              case Some(d) => Some(FechaJson(d)))
  }

  /**
    Binding a JSON body to a server `Tarea`; None when the due text is not a
    date-time or names a year before 1, which the framework answers with 400
    before any handler runs.
  */
  function Enlazar(id: int, nombre: string, completada: bool, usuarioId: int, fecha: Option<string>): (r: Option<Backend.Tarea>)
    ensures fecha.None? ==> r.Some?
    ensures fecha.Some? ==> (r.Some? <==> Dates.ParseIsoDateTime(fecha.value).Some?
                                          && Dates.ParseIsoDateTime(fecha.value).value.year >= 1)
    ensures r.Some? ==> r.value.id == id && r.value.nombre == nombre && r.value.completada == completada
                        && r.value.usuarioId == usuarioId
    ensures r.Some? ==> (r.value.fechaVencimiento.None? <==> fecha.None?)
    ensures r.Some? && fecha.Some? ==> Dates.ParseIsoDateTime(fecha.value) == Some(r.value.fechaVencimiento.value)
  {
    match fecha
    case None => Some(Backend.Tarea(id, nombre, completada, usuarioId, None))
    case Some(s) =>
      match Dates.ParseIsoDateTime(s)
      case None => None
      case Some(d) =>
        if d.year >= 1 then Some(Backend.Tarea(id, nombre, completada, usuarioId, Some(d))) else None
  }

  /** The stored due date reaches the client as text that reads back as the same day. */
  lemma FechaJsonIdaYVuelta(d: Dates.CalendarDay)
    ensures Dates.ParseIsoDateTime(FechaJson(d)) == Some(d)
    ensures FechaJson(d)[..10] == Dates.FormatIsoDate(d)
  {
    Dates.MidnightIsIsoTime();
    Dates.ParseIsoDateTimeOfFormat(d, "T00:00:00");
  }

  /** On a task loaded from the server, 'vencidas' keeps it iff its stored day is before today and it is not done. */
  lemma VencidasSobreServidor(t: Backend.Tarea, hoy: Dates.CalendarDay)
    ensures App.PasaFiltro(AlCliente(t), "vencidas", hoy)
        <==> t.fechaVencimiento.Some? && Dates.Before(t.fechaVencimiento.value, hoy) && !t.completada
  {
    if t.fechaVencimiento.Some? {
      var d := t.fechaVencimiento.value;
      FechaJsonIdaYVuelta(d);
      App.FechaLimpia(FechaJson(d));
      Dates.ParseFormatIsoDate(d);
    }
  }

  /** On a task loaded from the server, the card's flags read the stored day. */
  lemma MarcasSobreServidor(t: Backend.Tarea, hoy: Dates.CalendarDay)
    ensures TaskCard.FechaVencio(AlCliente(t), hoy)
        <==> t.fechaVencimiento.Some? && Dates.Before(t.fechaVencimiento.value, hoy) && !t.completada
    ensures TaskCard.FechaHoy(AlCliente(t), hoy)
        <==> t.fechaVencimiento.Some? && t.fechaVencimiento.value.day == hoy.day && !t.completada
  {
    if t.fechaVencimiento.Some? {
      FechaJsonIdaYVuelta(t.fechaVencimiento.value);
    }
  }

  /** The card's red badge and the 'vencidas' filter agree on every task the server sends. */
  lemma TarjetaYFiltroCoinciden(t: Backend.Tarea, hoy: Dates.CalendarDay)
    ensures TaskCard.FechaVencio(AlCliente(t), hoy) == App.PasaFiltro(AlCliente(t), "vencidas", hoy)
  {
  }

  /**
    toggleTarea on a loaded task sends a body that binds, and PUT applied
    with it flips the stored completion and nothing else.
  */
  lemma ToggleSobreServidor(t: Backend.Tarea)
    ensures var c := App.ToggleTarea(AlCliente(t));
      var cuerpo := Enlazar(c.id, c.nombre, c.completada, t.usuarioId, c.fechaVencimiento);
      cuerpo.Some? && Backend.Actualizada(t, cuerpo.value) == t.(completada := !t.completada)
  {
    if t.fechaVencimiento.Some? {
      FechaJsonIdaYVuelta(t.fechaVencimiento.value);
    }
  }

  /**
    crearTarea with a date input ("YYYY-MM-DD" or empty) posts a body that
    binds unless the typed year is 0000; once stored, the owner's listing
    holds it, not done, and the due text it comes back with starts with
    what was typed.
  */
  lemma CrearYListar(ts: seq<Backend.Tarea>, texto: string, fecha: string,
                     sesion: App.Sesion, nuevoId: int)
    requires texto != ""
    requires fecha == "" || Dates.ParseIsoDate(fecha).Some?
    ensures var n := App.CrearTarea(texto, fecha, Some(sesion)).value;
      var cuerpo := Enlazar(0, n.nombre, n.completada, n.usuarioId, n.fechaVencimiento);
      && (cuerpo.Some? <==> fecha == "" || Dates.ParseIsoDate(fecha).value.year >= 1)
      && (cuerpo.Some? ==>
            var creada := cuerpo.value.(id := nuevoId);
            && creada in Backend.TareasDe(ts + [creada], sesion.id)
            && creada.nombre == texto && !creada.completada && creada.usuarioId == sesion.id
            && (fecha == "" <==> creada.fechaVencimiento.None?)
            && (fecha != "" ==> AlCliente(creada).fechaVencimiento.value[..10] == fecha))
  {
    var n := App.CrearTarea(texto, fecha, Some(sesion)).value;
    if fecha != "" {
      var d := Dates.ParseIsoDate(fecha).value;
      Dates.FormatParseIsoDate(fecha);
      assert fecha[..10] == fecha && fecha[10..] == "";
      assert Dates.ParseIsoDateTime(fecha) == Some(d);
      FechaJsonIdaYVuelta(d);
    }
    var cuerpo := Enlazar(0, n.nombre, n.completada, n.usuarioId, n.fechaVencimiento);
    if cuerpo.Some? {
      var creada := cuerpo.value.(id := nuevoId);
      Backend.TareasDeTrasCrear(ts, creada, sesion.id);
    }
  }
}
