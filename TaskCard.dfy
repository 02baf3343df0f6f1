/**
  The task card's due-date flags and badge. `fechaVencio` compares the due
  date with today's midnight; `fechaHoy` compares only the day of the month,
  so a task due on the same day of an earlier month is both overdue and
  "today". The model keeps that behaviour.
*/
module TaskCard {
  import opened Wrappers
  import Dates
  import App

  /** `fechaDate`: null for a falsy due text, otherwise a Date that may be invalid. */
  datatype FechaDate = Nula | Invalida | Dia(dia: Dates.CalendarDay)

  function FechaDateDe(t: App.Tarea): (r: FechaDate)
    ensures r.Nula? <==> !App.Truthy(t.fechaVencimiento)
    ensures r.Invalida? <==> App.Truthy(t.fechaVencimiento) && Dates.ParseIsoDateTime(t.fechaVencimiento.value).None?
    ensures r.Dia? ==> Dates.ParseIsoDateTime(t.fechaVencimiento.value) == Some(r.dia)
  {
    if !App.Truthy(t.fechaVencimiento) then Nula
    else match Dates.ParseIsoDateTime(t.fechaVencimiento.value)
      case None => Invalida
      case Some(d) => Dia(d)
  }

  /** `fechaVencio`. */
  predicate FechaVencio(t: App.Tarea, hoy: Dates.CalendarDay): (r: bool)
    ensures r ==> App.Truthy(t.fechaVencimiento) && !t.completada
  {
    var f := FechaDateDe(t);
    f.Dia? && Dates.Before(f.dia, hoy) && !t.completada
  }

  /** `fechaHoy`: same day of the month as today (`getDate()`), month and year ignored. */
  predicate FechaHoy(t: App.Tarea, hoy: Dates.CalendarDay): (r: bool)
    ensures r ==> App.Truthy(t.fechaVencimiento) && !t.completada
  {
    var f := FechaDateDe(t);
    f.Dia? && f.dia.day == hoy.day && !t.completada
  }

  datatype Color = Rojo | Azul | Gris

  /** The date badge: not rendered at all, or rendered in a colour with the "Vencida" and "Es hoy" labels each shown or not. */
  datatype Insignia = Oculta | Visible(color: Color, vencida: bool, esHoy: bool)

  function InsigniaDe(t: App.Tarea, hoy: Dates.CalendarDay): (r: Insignia)
    ensures r.Oculta? <==> !App.Truthy(t.fechaVencimiento)
    ensures r.Visible? ==> (r.color == Rojo <==> FechaVencio(t, hoy))
    ensures r.Visible? ==> (r.color == Azul <==> FechaHoy(t, hoy) && !FechaVencio(t, hoy))
    ensures r.Visible? ==> r.vencida == FechaVencio(t, hoy) && r.esHoy == FechaHoy(t, hoy)
  {
    if FechaDateDe(t).Nula? then Oculta
    else
      var vencio := FechaVencio(t, hoy);
      var esHoy := FechaHoy(t, hoy);
      Visible(if vencio then Rojo else if esHoy then Azul else Gris, vencio, esHoy)
  }

  /** Reference meaning of "due today": the due day is today's date, and the task is not done. */
  predicate VenceHoy(t: App.Tarea, hoy: Dates.CalendarDay) {
    var f := FechaDateDe(t);
    f.Dia? && f.dia == hoy && !t.completada
  }

  lemma SinFechaSinMarcas(t: App.Tarea, hoy: Dates.CalendarDay)
    requires !App.Truthy(t.fechaVencimiento)
    ensures !FechaVencio(t, hoy) && !FechaHoy(t, hoy) && InsigniaDe(t, hoy) == Oculta
  {
  }

  lemma CompletadaSinMarcas(t: App.Tarea, hoy: Dates.CalendarDay)
    requires t.completada
    ensures !FechaVencio(t, hoy) && !FechaHoy(t, hoy)
    ensures App.Truthy(t.fechaVencimiento) ==> InsigniaDe(t, hoy) == Visible(Gris, false, false)
  {
  }

  /** A task due today is flagged "today" and not overdue; the converse fails (see HoyIgnoraMesYAnio). */
  lemma VenceHoyEsHoy(t: App.Tarea, hoy: Dates.CalendarDay)
    requires VenceHoy(t, hoy)
    ensures FechaHoy(t, hoy) && !FechaVencio(t, hoy)
    ensures InsigniaDe(t, hoy) == Visible(Azul, false, true)
  {
  }

  lemma FormatoDeEjemplo()
    ensures Dates.FormatIsoDate(Dates.Date(2026, 9, 15)) == "2026-09-15"
  {
    var f := Dates.FormatIsoDate(Dates.Date(2026, 9, 15));
    assert Dates.Digits(2026, 4) == "2026";
    assert Dates.Digits(9, 2) == "09";
    assert Dates.Digits(15, 2) == "15";
    assert f == "2026" + "-" + "09" + "-" + "15";
  }

  /** The server's text for 2026-09-15 reads as that day. */
  lemma FechaDeEjemplo()
    ensures Dates.ParseIsoDateTime("2026-09-15T00:00:00") == Some(Dates.Date(2026, 9, 15))
  {
    var s := "2026-09-15T00:00:00";
    assert s[..10] == "2026-09-15" && s[10..] == "T00:00:00";
    FormatoDeEjemplo();
    Dates.MidnightIsIsoTime();
    Dates.ParseIsoDateTimeNamesDay(s, Dates.Date(2026, 9, 15));
  }

  /**
    A task due on 2026-09-15, seen on 2026-10-15, is overdue and also
    flagged "today": the badge is red and shows both labels.
  */
  lemma HoyIgnoraMesYAnio()
    ensures var hoy := Dates.Date(2026, 10, 15);
      var t := App.Tarea(1, "Pagar", false, Some("2026-09-15T00:00:00"));
      FechaVencio(t, hoy) && FechaHoy(t, hoy) && !VenceHoy(t, hoy)
      && InsigniaDe(t, hoy) == Visible(Rojo, true, true)
  {
    var t := App.Tarea(1, "Pagar", false, Some("2026-09-15T00:00:00"));
    FechaDeEjemplo();
    assert FechaDateDe(t) == Dia(Dates.Date(2026, 9, 15));
  }

  /** When both flags hold the overdue badge wins, and both labels are shown. */
  lemma VencidaTienePrioridad(t: App.Tarea, hoy: Dates.CalendarDay)
    requires FechaVencio(t, hoy) && FechaHoy(t, hoy)
    ensures InsigniaDe(t, hoy) == Visible(Rojo, true, true)
  {
  }
}
