/**
 * The events store that orders events by city name and offers one city per
 * event id for the city select.
 */
module StoreEventosKlaukol {
  import opened Wrappers
  import opened JsText
  import opened Sorting
  import opened ReferenceStore

  /** A row of `eventos_klaukol` as this store reads it; `nombreCiudad` is the
      column `nombre_ciudad`. */
  datatype Evento = Evento(id: JsValue, nombreCiudad: string)

  /** An entry of the city select, `{ id, nombre }`. */
  datatype Ciudad = Ciudad(id: JsValue, nombre: string)

  const CacheKey := "eventos_klaukol_data"
  const CacheTtlMinutes := 60

  function EventoId(e: Evento): JsValue {
    e.id
  }

  function NombreCiudad(e: Evento): string {
    e.nombreCiudad
  }

  function NombreDe(c: Ciudad): string {
    c.nombre
  }

  /** `eventosOrdenados`: a sorted copy of the events, by city name. */
  function EventosOrdenados(eventos: seq<Evento>): (r: seq<Evento>)
    ensures multiset(r) == multiset(eventos)
    ensures forall i, j :: 0 <= i < j < |r| ==> LocaleLe(r[i].nombreCiudad, r[j].nombreCiudad)
  {
    LocaleLeIsTotalPreorder();
    var r := SortByKey(eventos, NombreCiudad, LocaleLe);
    assert forall i, j :: 0 <= i < j < |r| ==> LocaleLe(NombreCiudad(r[i]), NombreCiudad(r[j]));
    r
  }

  /** `evento.id && evento.nombre_ciudad`: the event can name a city. */
  predicate Qualifies(e: Evento) {
    Truthy(e.id) && e.nombreCiudad != []
  }

  function IdsOf(cs: seq<Ciudad>): set<JsValue> {
    set c | c in cs :: c.id
  }

  /** `eventos[k]` is the first event that qualifies with id `id`. */
  predicate FirstQualifying(eventos: seq<Evento>, k: int, id: JsValue) {
    && 0 <= k < |eventos| && Qualifies(eventos[k]) && eventos[k].id == id
    && forall j :: 0 <= j < k ==> !(Qualifies(eventos[j]) && eventos[j].id == id)
  }

  /** `c` is `{ id, nombre }` of the first event that qualifies with `c.id`. */
  ghost predicate FromFirstQualifying(eventos: seq<Evento>, c: Ciudad) {
    exists k :: FirstQualifying(eventos, k, c.id) && c == Ciudad(eventos[k].id, eventos[k].nombreCiudad)
  }

  /** The values of the `Map` the loop of `ciudadesDisponibles` builds, in
      insertion order: one entry per id, taken from the first event that
      qualifies with it. Its ids are distinct, each entry comes from the first
      qualifying event with its id, and every qualifying event's id is there. */
  function FirstById(eventos: seq<Evento>): (r: seq<Ciudad>)
    ensures forall i, j :: 0 <= i < j < |r| ==> r[i].id != r[j].id
    ensures forall i :: 0 <= i < |r| ==> FromFirstQualifying(eventos, r[i])
    ensures forall k :: 0 <= k < |eventos| && Qualifies(eventos[k]) ==> eventos[k].id in IdsOf(r)
  {
    if eventos == [] then []
    else
      var init, e := eventos[..|eventos| - 1], eventos[|eventos| - 1];
      var p := FirstById(init);
      var r := if Qualifies(e) && e.id !in IdsOf(p) then p + [Ciudad(e.id, e.nombreCiudad)] else p;
      FirstByIdStep(eventos, p, r);
      r
  }

  /** What `FirstById` promises of `r` for `eventos`. */
  ghost predicate FirstByIdFacts(eventos: seq<Evento>, r: seq<Ciudad>) {
    && (forall i, j :: 0 <= i < j < |r| ==> r[i].id != r[j].id)
    && (forall i :: 0 <= i < |r| ==> FromFirstQualifying(eventos, r[i]))
    && (forall k :: 0 <= k < |eventos| && Qualifies(eventos[k]) ==> eventos[k].id in IdsOf(r))
  }

  /** One step of the loop keeps the three facts. */
  lemma FirstByIdStep(eventos: seq<Evento>, p: seq<Ciudad>, r: seq<Ciudad>)
    requires eventos != [] && FirstByIdFacts(eventos[..|eventos| - 1], p)
    requires var e := eventos[|eventos| - 1];
      r == if Qualifies(e) && e.id !in IdsOf(p) then p + [Ciudad(e.id, e.nombreCiudad)] else p
    ensures FirstByIdFacts(eventos, r)
  {
    StepKeepsDistinctIds(eventos, p, r);
    StepKeepsFirstQualifying(eventos, p, r);
    StepKeepsEveryId(eventos, p, r);
  }

  lemma StepKeepsDistinctIds(eventos: seq<Evento>, p: seq<Ciudad>, r: seq<Ciudad>)
    requires eventos != [] && FirstByIdFacts(eventos[..|eventos| - 1], p)
    requires var e := eventos[|eventos| - 1];
      r == if Qualifies(e) && e.id !in IdsOf(p) then p + [Ciudad(e.id, e.nombreCiudad)] else p
    ensures forall i, j :: 0 <= i < j < |r| ==> r[i].id != r[j].id
  {
    forall i, j | 0 <= i < j < |r| ensures r[i].id != r[j].id {
      if j == |p| {
        assert r[i] == p[i] && p[i] in p;
      } else {
        assert r[i] == p[i] && r[j] == p[j];
      }
    }
  }

  lemma StepKeepsFirstQualifying(eventos: seq<Evento>, p: seq<Ciudad>, r: seq<Ciudad>)
    requires eventos != [] && FirstByIdFacts(eventos[..|eventos| - 1], p)
    requires var e := eventos[|eventos| - 1];
      r == if Qualifies(e) && e.id !in IdsOf(p) then p + [Ciudad(e.id, e.nombreCiudad)] else p
    ensures forall i :: 0 <= i < |r| ==> FromFirstQualifying(eventos, r[i])
  {
    var n := |eventos| - 1;
    var init, e := eventos[..n], eventos[n];
    assert forall j :: 0 <= j < n ==> eventos[j] == init[j];
    forall i | 0 <= i < |r| ensures FromFirstQualifying(eventos, r[i]) {
      if i < |p| {
        assert r[i] == p[i] && FromFirstQualifying(init, p[i]);
        var k :| FirstQualifying(init, k, p[i].id) && p[i] == Ciudad(init[k].id, init[k].nombreCiudad);
        assert FirstQualifying(eventos, k, r[i].id) && r[i] == Ciudad(eventos[k].id, eventos[k].nombreCiudad);
      } else {
        assert r[i] == Ciudad(e.id, e.nombreCiudad) && Qualifies(e) && e.id !in IdsOf(p);
        forall j | 0 <= j < n ensures !(Qualifies(eventos[j]) && eventos[j].id == e.id) {
          if Qualifies(init[j]) {
            assert init[j].id in IdsOf(p);
          }
        }
        assert FirstQualifying(eventos, n, r[i].id) && r[i] == Ciudad(eventos[n].id, eventos[n].nombreCiudad);
      }
    }
  }

  lemma StepKeepsEveryId(eventos: seq<Evento>, p: seq<Ciudad>, r: seq<Ciudad>)
    requires eventos != [] && FirstByIdFacts(eventos[..|eventos| - 1], p)
    requires var e := eventos[|eventos| - 1];
      r == if Qualifies(e) && e.id !in IdsOf(p) then p + [Ciudad(e.id, e.nombreCiudad)] else p
    ensures forall k :: 0 <= k < |eventos| && Qualifies(eventos[k]) ==> eventos[k].id in IdsOf(r)
  {
    var n := |eventos| - 1;
    var init := eventos[..n];
    forall k | 0 <= k < |eventos| && Qualifies(eventos[k]) ensures eventos[k].id in IdsOf(r) {
      if k < n {
        assert eventos[k] == init[k];
        assert init[k].id in IdsOf(p);
        var c :| c in p && c.id == init[k].id;
        assert c in r;
      } else if r != p {
        assert r[|p|] in r;
      }
    }
  }

  /** `ciudadesDisponibles`: the `for` loop fills a `Map` keyed by id, keeping
      the first qualifying event of each id; its values are then sorted by name.
      The ids are distinct, every entry is `{ id, nombre }` of the first event
      that qualifies with its id, every qualifying event's id is present, and
      the entries are in name order. */
  method CiudadesDisponibles(eventos: seq<Evento>) returns (ciudades: seq<Ciudad>)
    ensures multiset(ciudades) == multiset(FirstById(eventos))
    ensures forall i, j :: 0 <= i < j < |ciudades| ==> ciudades[i].id != ciudades[j].id
    ensures forall i :: 0 <= i < |ciudades| ==> FromFirstQualifying(eventos, ciudades[i])
    ensures forall k :: 0 <= k < |eventos| && Qualifies(eventos[k]) ==>
      exists i :: 0 <= i < |ciudades| && ciudades[i].id == eventos[k].id
    ensures forall i, j :: 0 <= i < j < |ciudades| ==> LocaleLe(ciudades[i].nombre, ciudades[j].nombre)
  {
    var values: seq<Ciudad> := [];
    var seen: set<JsValue> := {};
    for k := 0 to |eventos|
      invariant values == FirstById(eventos[..k])
      invariant seen == IdsOf(values)
    {
      var evento := eventos[k];
      assert eventos[..k + 1][..k] == eventos[..k];
      if Truthy(evento.id) && evento.nombreCiudad != [] && evento.id !in seen {
        values := values + [Ciudad(evento.id, evento.nombreCiudad)];
        seen := seen + {evento.id};
      }
    }
    assert eventos[..|eventos|] == eventos;
    LocaleLeIsTotalPreorder();
    ciudades := SortByKey(values, NombreDe, LocaleLe);
    SortedCiudadesFacts(eventos, values, ciudades);
  }

  lemma SortedCiudadesFacts(eventos: seq<Evento>, values: seq<Ciudad>, ciudades: seq<Ciudad>)
    requires values == FirstById(eventos)
    requires multiset(ciudades) == multiset(values) && SortedByKey(ciudades, NombreDe, LocaleLe)
    ensures forall i, j :: 0 <= i < j < |ciudades| ==> ciudades[i].id != ciudades[j].id
    ensures forall i :: 0 <= i < |ciudades| ==> FromFirstQualifying(eventos, ciudades[i])
    ensures forall k :: 0 <= k < |eventos| && Qualifies(eventos[k]) ==>
      exists i :: 0 <= i < |ciudades| && ciudades[i].id == eventos[k].id
    ensures forall i, j :: 0 <= i < j < |ciudades| ==> LocaleLe(ciudades[i].nombre, ciudades[j].nombre)
  {
    SameElements(values, ciudades);
    DistinctIdsKept(values, ciudades);
    forall k | 0 <= k < |eventos| && Qualifies(eventos[k])
      ensures exists i :: 0 <= i < |ciudades| && ciudades[i].id == eventos[k].id
    {
      assert eventos[k].id in IdsOf(values);
      var c :| c in values && c.id == eventos[k].id;
      var i :| 0 <= i < |ciudades| && ciudades[i] == c;
    }
    SortedByNombre(ciudades);
  }

  lemma SortedByNombre(ciudades: seq<Ciudad>)
    requires SortedByKey(ciudades, NombreDe, LocaleLe)
    ensures forall i, j :: 0 <= i < j < |ciudades| ==> LocaleLe(ciudades[i].nombre, ciudades[j].nombre)
  {
    forall i, j | 0 <= i < j < |ciudades| ensures LocaleLe(ciudades[i].nombre, ciudades[j].nombre) {
      assert LocaleLe(NombreDe(ciudades[i]), NombreDe(ciudades[j]));
    }
  }

  /** A permutation has the same elements. */
  lemma SameElements(values: seq<Ciudad>, ciudades: seq<Ciudad>)
    requires multiset(ciudades) == multiset(values)
    ensures forall c :: c in ciudades <==> c in values
  {
    forall c ensures c in ciudades <==> c in values {
      assert c in ciudades <==> c in multiset(ciudades);
      assert c in values <==> c in multiset(values);
    }
  }

  /** A permutation of entries with distinct ids has distinct ids. */
  lemma DistinctIdsKept(values: seq<Ciudad>, ciudades: seq<Ciudad>)
    requires multiset(ciudades) == multiset(values)
    requires forall i, j :: 0 <= i < j < |values| ==> values[i].id != values[j].id
    ensures forall i, j :: 0 <= i < j < |ciudades| ==> ciudades[i].id != ciudades[j].id
  {
    SameElements(values, ciudades);
    assert NoDuplicates(values);
    PermutationKeepsNoDuplicates(values, ciudades);
    forall i, j | 0 <= i < j < |ciudades| ensures ciudades[i].id != ciudades[j].id {
      assert ciudades[i] in ciudades && ciudades[j] in ciudades;
      var a :| 0 <= a < |values| && values[a] == ciudades[i];
      var b :| 0 <= b < |values| && values[b] == ciudades[j];
      assert a != b;
    }
  }

  /** The events store, `{ eventos, loading, error }`. */
  class EventosStore {
    var eventos: seq<Evento>
    var loading: bool
    var error: Option<string>

    constructor ()
      ensures Snapshot() == Initial()
    {
      eventos, loading, error := [], false, None;
    }

    function Snapshot(): State<Evento>
      reads this
    {
      State(eventos, loading, error)
    }

    /** `fetchEventos`; `answer` is what the table would give. */
    method FetchEventos(cache: Cache<seq<Evento>>, answer: Fetched<seq<Evento>>) returns (refreshScheduled: bool)
      modifies this, cache
      ensures var o := FetchList(old(Snapshot()), old(cache.entries), CacheKey, CacheTtlMinutes, answer);
        Snapshot() == o.state && cache.entries == o.entries && refreshScheduled == o.refreshScheduled
    {
      var cachedData := cache.Get(CacheKey);
      if cachedData.Some? {
        eventos := cachedData.value;
        refreshScheduled := true;
        return;
      }
      loading := true;
      match answer {
        case Loaded(data) =>
          eventos := data;
          cache.Save(CacheKey, data, CacheTtlMinutes);
        case Failed(message) =>
          error := Some(message);
      }
      loading := false;
      refreshScheduled := false;
    }

    /** `refreshEventosInBackground`; `answer` is what the table would give. */
    method RefreshEventosInBackground(cache: Cache<seq<Evento>>, answer: Fetched<seq<Evento>>)
      modifies this, cache
      ensures var o := Refresh(old(Snapshot()), old(cache.entries), CacheKey, CacheTtlMinutes, answer);
        Snapshot() == o.state && cache.entries == o.entries
    {
      match answer {
        case Loaded(data) =>
          eventos := data;
          cache.Save(CacheKey, data, CacheTtlMinutes);
        case Failed(_) =>
      }
    }

    /** `fetchEventoPorId(id)`; `answer` is what the single-row query would give. */
    method FetchEventoPorId(id: JsValue, answer: Fetched<Evento>) returns (evento: Option<Evento>, remoteCalled: bool)
      modifies this`error
      ensures var o := FetchById(old(Snapshot()), id, EventoId, answer);
        evento == o.found && Snapshot() == o.state && remoteCalled == o.remoteCalled
    {
      if |eventos| > 0 {
        var eventoCache := FindById(eventos, id, EventoId);
        if eventoCache.Some? {
          return eventoCache, false;
        }
      }
      remoteCalled := true;
      match answer {
        case Loaded(data) =>
          evento := Some(data);
        case Failed(message) =>
          error := Some(message);
          evento := None;
      }
    }
  }
}
