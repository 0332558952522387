/**
 * The trades store. `stores/oficios.js` and `store/oficios.js` differ only in
 * layout and comments, so one module models both.
 */
module Oficios {
  import opened Wrappers
  import opened JsText
  import opened Sorting
  import opened ReferenceStore

  /** A row of `oficios` as the store reads it. */
  datatype Oficio = Oficio(id: JsValue, nombre: string)

  /** An entry of a select component, `{ value, label }`; `label` is a keyword here, hence `labelText`. */
  datatype SelectOption = SelectOption(value: JsValue, labelText: string)

  const CacheKey := "oficios_data"
  const CacheTtlMinutes := 60

  function OficioId(o: Oficio): JsValue {
    o.id
  }

  function Nombre(o: Oficio): string {
    o.nombre
  }

  function Label(opt: SelectOption): string {
    opt.labelText
  }

  /** `oficio => ({ value: oficio.id, label: oficio.nombre })`. */
  function ToSelectOption(o: Oficio): SelectOption {
    SelectOption(o.id, o.nombre)
  }

  /** `opt` is `{ value: o.id, label: o.nombre }` for some trade `o`. */
  ghost predicate IsOptionOf(oficios: seq<Oficio>, opt: SelectOption) {
    exists k :: 0 <= k < |oficios| && opt == SelectOption(oficios[k].id, oficios[k].nombre)
  }

  /** `oficiosOrdenados`: a sorted copy of the trades, by name. */
  function OficiosOrdenados(oficios: seq<Oficio>): (r: seq<Oficio>)
    ensures multiset(r) == multiset(oficios)
    ensures forall i, j :: 0 <= i < j < |r| ==> LocaleLe(r[i].nombre, r[j].nombre)
  {
    LocaleLeIsTotalPreorder();
    var r := SortByKey(oficios, Nombre, LocaleLe);
    assert forall i, j :: 0 <= i < j < |r| ==> LocaleLe(Nombre(r[i]), Nombre(r[j]));
    r
  }

  /** `oficiosParaSelect`: one `{ value: id, label: nombre }` per trade, ordered
      by label; as a multiset, exactly the projection of the trades. */
  function OficiosParaSelect(oficios: seq<Oficio>): (r: seq<SelectOption>)
    ensures |r| == |oficios|
    ensures multiset(r) == multiset(MapSeq(ToSelectOption, oficios))
    ensures forall i :: 0 <= i < |r| ==> IsOptionOf(oficios, r[i])
    ensures forall i, j :: 0 <= i < j < |r| ==> LocaleLe(r[i].labelText, r[j].labelText)
  {
    var opciones := MapSeq(ToSelectOption, oficios);
    LocaleLeIsTotalPreorder();
    var r := SortByKey(opciones, Label, LocaleLe);
    ProjectedOptions(oficios, opciones, r);
    r
  }

  lemma ProjectedOptions(oficios: seq<Oficio>, opciones: seq<SelectOption>, r: seq<SelectOption>)
    requires opciones == MapSeq(ToSelectOption, oficios)
    requires multiset(r) == multiset(opciones) && SortedByKey(r, Label, LocaleLe)
    ensures forall i :: 0 <= i < |r| ==> IsOptionOf(oficios, r[i])
    ensures forall i, j :: 0 <= i < j < |r| ==> LocaleLe(r[i].labelText, r[j].labelText)
  {
    forall i | 0 <= i < |r|
      ensures IsOptionOf(oficios, r[i])
    {
      assert r[i] in multiset(r);
      assert r[i] in opciones;
      var k :| 0 <= k < |opciones| && opciones[k] == r[i];
      assert opciones[k] == ToSelectOption(oficios[k]);
      assert k < |oficios| && r[i] == SelectOption(oficios[k].id, oficios[k].nombre);
    }
    forall i, j | 0 <= i < j < |r| ensures LocaleLe(r[i].labelText, r[j].labelText) {
      assert LocaleLe(Label(r[i]), Label(r[j]));
    }
  }

  /** The select list is the sorted trades list, projected: both sort by the
      same name with the same stable sort. */
  lemma ParaSelectIsOrdenadosProjected(oficios: seq<Oficio>)
    ensures OficiosParaSelect(oficios) == MapSeq(ToSelectOption, OficiosOrdenados(oficios))
  {
    LocaleLeIsTotalPreorder();
    SortByKeyMap(oficios, ToSelectOption, Nombre, Label, LocaleLe);
  }

  /** The trades store, `{ oficios, loading, error }`. */
  class OficiosStore {
    var oficios: seq<Oficio>
    var loading: bool
    var error: Option<string>

    constructor ()
      ensures Snapshot() == Initial()
    {
      oficios, loading, error := [], false, None;
    }

    function Snapshot(): State<Oficio>
      reads this
    {
      State(oficios, loading, error)
    }

    /** `fetchOficios`; `answer` is what the table would give. */
    method FetchOficios(cache: Cache<seq<Oficio>>, answer: Fetched<seq<Oficio>>) returns (refreshScheduled: bool)
      modifies this, cache
      ensures var o := FetchList(old(Snapshot()), old(cache.entries), CacheKey, CacheTtlMinutes, answer);
        Snapshot() == o.state && cache.entries == o.entries && refreshScheduled == o.refreshScheduled
    {
      var cachedData := cache.Get(CacheKey);
      if cachedData.Some? {
        oficios := cachedData.value;
        refreshScheduled := true;
        return;
      }
      loading := true;
      match answer {
        case Loaded(data) =>
          oficios := data;
          cache.Save(CacheKey, data, CacheTtlMinutes);
        case Failed(message) =>
          error := Some(message);
      }
      loading := false;
      refreshScheduled := false;
    }

    /** `refreshOficiosInBackground`; `answer` is what the table would give. */
    method RefreshOficiosInBackground(cache: Cache<seq<Oficio>>, answer: Fetched<seq<Oficio>>)
      modifies this, cache
      ensures var o := Refresh(old(Snapshot()), old(cache.entries), CacheKey, CacheTtlMinutes, answer);
        Snapshot() == o.state && cache.entries == o.entries
    {
      match answer {
        case Loaded(data) =>
          oficios := data;
          cache.Save(CacheKey, data, CacheTtlMinutes);
        case Failed(_) =>
      }
    }

    /** `fetchOficioPorId(id)`; `answer` is what the single-row query would give. */
    method FetchOficioPorId(id: JsValue, answer: Fetched<Oficio>) returns (oficio: Option<Oficio>, remoteCalled: bool)
      modifies this`error
      ensures var o := FetchById(old(Snapshot()), id, OficioId, answer);
        oficio == o.found && Snapshot() == o.state && remoteCalled == o.remoteCalled
    {
      if |oficios| > 0 {
        var oficioCache := FindById(oficios, id, OficioId);
        if oficioCache.Some? {
          return oficioCache, false;
        }
      }
      remoteCalled := true;
      match answer {
        case Loaded(data) =>
          oficio := Some(data);
        case Failed(message) =>
          error := Some(message);
          oficio := None;
      }
    }
  }
}
