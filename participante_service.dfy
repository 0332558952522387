/**
 * The result logic of the participant service: preparing a registration form
 * for storage, reading the answer of the duplicate-count query, and reading the
 * answer of the insert. The database itself is not modelled; each query is
 * represented by the answer it gave.
 */
module ParticipanteService {
  import opened Wrappers
  import opened JsText

  /** The registration form as the page collects it. Text inputs may be unset. */
  datatype Form = Form(
    nombre: Option<string>,
    apellido: Option<string>,
    ciudad: JsValue,
    telefono: Option<string>,
    email: Option<string>,
    oficio: JsValue,
    terminos: JsValue)

  /** The row shape of the `participantes` table, without `fecha_registro`:
      `ciudadId`, `oficioId` and `aceptoTerminos` are the columns `ciudad_id`,
      `oficio_id` and `acepto_terminos`. */
  datatype ParticipanteData = ParticipanteData(
    nombre: string,
    apellido: string,
    ciudadId: JsValue,
    telefono: string,
    email: string,
    oficioId: JsValue,
    aceptoTerminos: JsValue)

  /** A stored participant: the prepared data and the id the database gave it. */
  datatype Participante = Participante(id: int, data: ParticipanteData)

  /** `email.trim().toLowerCase()`, the key under which an e-mail is stored and
      looked up: the lower-cased form of the slice of `email` that has only
      whitespace around it and none at its ends. */
  function NormalizeEmail(email: string): (r: string)
    ensures exists t, i :: TrimmedAt(email, t, i) && TrimmedEnds(t) && r == ToLowerCase(t)
    ensures r == ToLowerCase(r)
    ensures r != [] ==> !IsWhitespace(r[0]) && !IsWhitespace(r[|r| - 1])
  {
    var t := Trim(email);
    var i :| TrimmedAt(email, t, i);
    ToLowerCaseIdempotent(t);
    ToLowerCase(t)
  }

  /** `t` neither starts nor ends with whitespace. */
  predicate TrimmedEnds(t: string) {
    t != [] ==> !IsWhitespace(t[0]) && !IsWhitespace(t[|t| - 1])
  }

  /** The key ignores letter case: an e-mail and its lower-cased form share it. */
  lemma NormalizeEmailIgnoresCase(email: string)
    ensures NormalizeEmail(ToLowerCase(email)) == NormalizeEmail(email)
  {
    TrimToLowerCase(email);
    ToLowerCaseIdempotent(Trim(email));
  }

  /** The key ignores whitespace padding on either side. */
  lemma NormalizeEmailIgnoresPadding(w1: string, email: string, w2: string)
    requires AllWhitespace(w1) && AllWhitespace(w2)
    ensures NormalizeEmail(w1 + email + w2) == NormalizeEmail(email)
  {
    TrimIgnoresPadding(w1, email, w2);
  }

  /** E-mails that differ only in letter case and surrounding whitespace, such
      as " A@B.com " and "a@b.com", are stored and looked up under one key. */
  lemma SameKeyUpToCaseAndPadding(w1: string, email: string, w2: string)
    requires AllWhitespace(w1) && AllWhitespace(w2)
    ensures NormalizeEmail(w1 + email + w2) == NormalizeEmail(ToLowerCase(email))
  {
    NormalizeEmailIgnoresPadding(w1, email, w2);
    NormalizeEmailIgnoresCase(email);
  }

  /** A form whose text fields are all set, so that preparing it does not throw. */
  predicate Preparable(form: Form) {
    form.nombre.Some? && form.apellido.Some? && form.telefono.Some? && form.email.Some?
  }

  /** `prepareParticipanteData` without the wall-clock `fecha_registro`. The text
      fields come out trimmed, the e-mail normalized, and the three selections
      pass through under their column names. */
  function PrepareParticipanteData(form: Form): (d: ParticipanteData)
    requires Preparable(form)
    ensures Trim(d.nombre) == d.nombre && Trim(d.apellido) == d.apellido && Trim(d.telefono) == d.telefono
    ensures exists i :: TrimmedAt(form.nombre.value, d.nombre, i)
    ensures exists i :: TrimmedAt(form.apellido.value, d.apellido, i)
    ensures exists i :: TrimmedAt(form.telefono.value, d.telefono, i)
    ensures d.email == NormalizeEmail(form.email.value) && NormalizeEmail(d.email) == d.email
    ensures d.ciudadId == form.ciudad && d.oficioId == form.oficio && d.aceptoTerminos == form.terminos
  {
    var d := ParticipanteData(
      Trim(form.nombre.value),
      Trim(form.apellido.value),
      form.ciudad,
      Trim(form.telefono.value),
      NormalizeEmail(form.email.value),
      form.oficio,
      form.terminos);
    TrimIdempotent(form.nombre.value);
    TrimIdempotent(form.apellido.value);
    TrimIdempotent(form.telefono.value);
    NormalizedEmailIsFixed(form.email.value);
    d
  }

  /** Normalizing a normalized e-mail changes nothing. */
  lemma NormalizedEmailIsFixed(email: string)
    ensures NormalizeEmail(NormalizeEmail(email)) == NormalizeEmail(email)
  {
    var r := NormalizeEmail(email);
    var t := Trim(r);
    assert TrimStart(r) == r;
    assert TrimEnd(r) == r;
    assert t == r;
  }

  /** The form a stored row would show if it were loaded back into the page. */
  function FormOf(d: ParticipanteData): (form: Form)
    ensures Preparable(form)
  {
    Form(Some(d.nombre), Some(d.apellido), d.ciudadId, Some(d.telefono), Some(d.email), d.oficioId, d.aceptoTerminos)
  }

  /** Preparing is idempotent: a prepared row, put back into a form and prepared
      again, comes out unchanged. */
  lemma PrepareRoundTrip(form: Form)
    requires Preparable(form)
    ensures PrepareParticipanteData(FormOf(PrepareParticipanteData(form))) == PrepareParticipanteData(form)
  {
    var d := PrepareParticipanteData(form);
    var d' := PrepareParticipanteData(FormOf(d));
    assert d'.nombre == Trim(d.nombre);
    assert d'.email == NormalizeEmail(d.email);
  }

  /** The answer of `select('*', { count: 'exact', head: true }).eq('email', email)`. */
  datatype CountResponse = CountResponse(count: Option<int>, error: Option<string>)

  /** `checkEmailExists` given the answer of its query: a failed query reads as
      "not registered", never as an exception. */
  function CheckEmailExists(response: CountResponse): (exists_: bool)
    ensures response.error.Some? ==> !exists_
    ensures exists_ <==> response.error.None? && response.count.Some? && response.count.value > 0
  {
    if response.error.Some? then false
    else match response.count
      case None => false
      case Some(n) => n > 0
  }

  /** The duplicate check seen from the validator: `email` goes to the query and
      the answer is read by `CheckEmailExists`. An e-mail is reported registered
      exactly when its query succeeded with a positive count, so a failing query
      never reports it. */
  function EmailExistsOracle(query: string -> CountResponse): (exists_: string -> bool)
    ensures forall e :: query(e).error.Some? ==> !exists_(e)
    ensures forall e :: exists_(e) <==> query(e).error.None? && query(e).count.Some? && query(e).count.value > 0
  {
    e => CheckEmailExists(query(e))
  }

  /** The exact count of rows whose `email` column equals `email`. */
  function CountWithEmail(table: seq<Participante>, email: string): (n: nat)
    ensures n <= |table|
  {
    if table == [] then 0
    else (if table[0].data.email == email then 1 else 0) + CountWithEmail(table[1..], email)
  }

  lemma {:induction false} CountWithEmailPositive(table: seq<Participante>, email: string)
    ensures CountWithEmail(table, email) > 0 <==> exists i :: 0 <= i < |table| && table[i].data.email == email
  {
    if table != [] {
      CountWithEmailPositive(table[1..], email);
      if CountWithEmail(table[1..], email) > 0 {
        var i :| 0 <= i < |table[1..]| && table[1..][i].data.email == email;
        assert table[i + 1].data.email == email;
      }
      if exists i :: 0 <= i < |table| && table[i].data.email == email {
        var i :| 0 <= i < |table| && table[i].data.email == email;
        if i > 0 {
          assert table[1..][i - 1] == table[i];
        }
      }
    }
  }

  /** When the query answers with the exact count over the table, `checkEmailExists`
      says whether some row has exactly that e-mail. */
  lemma CheckEmailExistsAgainstTable(table: seq<Participante>, email: string)
    ensures CheckEmailExists(CountResponse(Some(CountWithEmail(table, email)), None))
        <==> exists i :: 0 <= i < |table| && table[i].data.email == email
  {
    CountWithEmailPositive(table, email);
  }

  /** The answer of `insert(participanteData).select().single()`. */
  datatype InsertResponse = InsertResponse(data: Option<Participante>, error: Option<string>)

  /** `createParticipante` given the answer of its insert: the inserted row, or
      `null` when the insert raised an error. */
  function CreateParticipante(response: InsertResponse): (row: Option<Participante>)
    ensures response.error.Some? ==> row.None?
    ensures response.error.None? ==> row == response.data
  {
    if response.error.Some? then None else response.data
  }
}
