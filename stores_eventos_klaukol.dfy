/**
 * The events store that orders events by date and offers the distinct city
 * names for the city select.
 */
module StoresEventosKlaukol {
  import opened Wrappers
  import opened JsText
  import opened Sorting
  import opened ReferenceStore

  /** A row of `eventos_klaukol` as this store reads it. `fecha` is the event's
      date as the number of milliseconds `new Date(fecha)` stands for. */
  datatype Evento = Evento(id: JsValue, ciudad: string, fecha: int)

  const CacheKey := "eventos_klaukol_data"
  const CacheTtlMinutes := 60

  function EventoId(e: Evento): JsValue {
    e.id
  }

  function Fecha(e: Evento): int {
    e.fecha
  }

  function CiudadDe(e: Evento): string {
    e.ciudad
  }

  /** `eventosOrdenados`: a sorted copy of the events, the most recent first. */
  function EventosOrdenados(eventos: seq<Evento>): (r: seq<Evento>)
    ensures multiset(r) == multiset(eventos)
    ensures forall i, j :: 0 <= i < j < |r| ==> r[i].fecha >= r[j].fecha
  {
    IntGeIsTotalPreorder();
    var r := SortByKey(eventos, Fecha, IntGe);
    assert forall i, j :: 0 <= i < j < |r| ==> IntGe(Fecha(r[i]), Fecha(r[j]));
    r
  }

  /** `[...new Set(xs)]`: each distinct element once, in order of first occurrence. */
  function Distinct(s: seq<string>): (r: seq<string>)
    ensures forall x :: multiset(r)[x] == if x in s then 1 else 0
  {
    if s == [] then []
    else
      var init, last := s[..|s| - 1], s[|s| - 1];
      assert s == init + [last];
      var p := Distinct(init);
      if last in p then p else p + [last]
  }

  /** `ciudadesDisponibles`: every city of some event, each exactly once and
      nothing else, in ascending code-point order (the default `sort`). */
  function CiudadesDisponibles(eventos: seq<Evento>): (r: seq<string>)
    ensures forall c :: multiset(r)[c] == if exists i :: 0 <= i < |eventos| && eventos[i].ciudad == c then 1 else 0
    ensures forall i, j :: 0 <= i < j < |r| ==> CodePointLe(r[i], r[j]) && r[i] != r[j]
  {
    var unicas := Distinct(MapSeq(CiudadDe, eventos));
    CodePointLeIsTotalPreorder();
    var r := SortByKey(unicas, Itself, CodePointLe);
    CiudadesFacts(eventos, unicas, r);
    r
  }

  lemma CiudadesFacts(eventos: seq<Evento>, unicas: seq<string>, r: seq<string>)
    requires unicas == Distinct(MapSeq(CiudadDe, eventos))
    requires multiset(r) == multiset(unicas) && SortedByKey(r, Itself, CodePointLe)
    ensures forall c :: multiset(r)[c] == if exists i :: 0 <= i < |eventos| && eventos[i].ciudad == c then 1 else 0
    ensures forall i, j :: 0 <= i < j < |r| ==> CodePointLe(r[i], r[j]) && r[i] != r[j]
  {
    CiudadesOfEventos(eventos, MapSeq(CiudadDe, eventos));
    CountsAtMostOneNoDuplicates(unicas);
    PermutationKeepsNoDuplicates(unicas, r);
    assert forall i, j :: 0 <= i < j < |r| ==> CodePointLe(Itself(r[i]), Itself(r[j]));
  }

  function Itself(c: string): string {
    c
  }

  lemma CiudadesOfEventos(eventos: seq<Evento>, ciudades: seq<string>)
    requires ciudades == MapSeq(CiudadDe, eventos)
    ensures forall c :: c in ciudades <==> exists i :: 0 <= i < |eventos| && eventos[i].ciudad == c
  {
    forall c | c in ciudades ensures exists i :: 0 <= i < |eventos| && eventos[i].ciudad == c {
      var i :| 0 <= i < |ciudades| && ciudades[i] == c;
      assert eventos[i].ciudad == c;
    }
    forall i | 0 <= i < |eventos| ensures eventos[i].ciudad in ciudades {
      assert ciudades[i] == eventos[i].ciudad;
    }
  }

  /** The events store, `{ eventos, loading, error }`. */
  class EventosStore {
    var eventos: seq<Evento>
    var loading: bool
    var error: Option<string>

    constructor ()
      ensures Snapshot() == Initial()
    {
      eventos, loading, error := [], false, None;
    }

    function Snapshot(): State<Evento>
      reads this
    {
      State(eventos, loading, error)
    }

    /** `fetchEventos`; `answer` is what the table would give. */
    method FetchEventos(cache: Cache<seq<Evento>>, answer: Fetched<seq<Evento>>) returns (refreshScheduled: bool)
      modifies this, cache
      ensures var o := FetchList(old(Snapshot()), old(cache.entries), CacheKey, CacheTtlMinutes, answer);
        Snapshot() == o.state && cache.entries == o.entries && refreshScheduled == o.refreshScheduled
    {
      var cachedData := cache.Get(CacheKey);
      if cachedData.Some? {
        eventos := cachedData.value;
        refreshScheduled := true;
        return;
      }
      loading := true;
      match answer {
        case Loaded(data) =>
          eventos := data;
          cache.Save(CacheKey, data, CacheTtlMinutes);
        case Failed(message) =>
          error := Some(message);
      }
      loading := false;
      refreshScheduled := false;
    }

    /** `refreshEventosInBackground`; `answer` is what the table would give. */
    method RefreshEventosInBackground(cache: Cache<seq<Evento>>, answer: Fetched<seq<Evento>>)
      modifies this, cache
      ensures var o := Refresh(old(Snapshot()), old(cache.entries), CacheKey, CacheTtlMinutes, answer);
        Snapshot() == o.state && cache.entries == o.entries
    {
      match answer {
        case Loaded(data) =>
          eventos := data;
          cache.Save(CacheKey, data, CacheTtlMinutes);
        case Failed(_) =>
      }
    }

    /** `fetchEventoPorId(id)`; `answer` is what the single-row query would give. */
    method FetchEventoPorId(id: JsValue, answer: Fetched<Evento>) returns (evento: Option<Evento>, remoteCalled: bool)
      modifies this`error
      ensures var o := FetchById(old(Snapshot()), id, EventoId, answer);
        evento == o.found && Snapshot() == o.state && remoteCalled == o.remoteCalled
    {
      if |eventos| > 0 {
        var eventoCache := FindById(eventos, id, EventoId);
        if eventoCache.Some? {
          return eventoCache, false;
        }
      }
      remoteCalled := true;
      match answer {
        case Loaded(data) =>
          evento := Some(data);
        case Failed(message) =>
          error := Some(message);
          evento := None;
      }
    }
  }
}
