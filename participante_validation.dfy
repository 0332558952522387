/**
 * The registration-form validator. Each field validator decides from the
 * field's value alone (the e-mail validator may also ask the duplicate check)
 * and writes exactly one slot of the shared `errors` record: a fixed message,
 * or `None` for `null`. `ValidateForm` runs all seven, without short-circuit.
 */
module ParticipanteValidation {
  import opened Wrappers
  import opened JsText
  import opened ParticipanteService

  const NombreObligatorio := "El nombre es obligatorio"
  const NombreCorto := "El nombre debe tener al menos 2 caracteres"
  const ApellidoObligatorio := "El apellido es obligatorio"
  const ApellidoCorto := "El apellido debe tener al menos 2 caracteres"
  const CiudadRequerida := "Debe seleccionar una ciudad"
  const TelefonoObligatorio := "El teléfono es obligatorio"
  const TelefonoLongitud := "El teléfono debe tener entre 7 y 15 dígitos"
  const EmailObligatorio := "El email es obligatorio"
  const EmailInvalido := "El email no es válido"
  const EmailRegistrado := "Este email ya está registrado"
  const OficioRequerido := "Debe seleccionar un oficio"
  const TerminosRequeridos := "Debe aceptar los términos y condiciones"

  /** `!value || value.trim() === ''`. */
  predicate Blank(value: Option<string>) {
    !TextTruthy(value) || Trim(value.value) == ""
  }

  /** A text value is blank exactly when it is unset or all whitespace. */
  lemma BlankIffAllWhitespace(value: Option<string>)
    ensures Blank(value) <==> value.None? || AllWhitespace(value.value)
  {
    if value.Some? {
      TrimEmptyIffAllWhitespace(value.value);
    }
  }

  // ----- given name and family name -----

  /** The verdict of `validateNombre`. The length rule counts the untrimmed
      value, so surrounding spaces count towards the two characters. */
  function NombreError(value: Option<string>): (m: Option<string>)
    ensures m == Some(NombreObligatorio) <==> value.None? || AllWhitespace(value.value)
    ensures m == Some(NombreCorto) <==> value.Some? && !AllWhitespace(value.value) && |value.value| < 2
    ensures m == None <==> value.Some? && !AllWhitespace(value.value) && |value.value| >= 2
  {
    BlankIffAllWhitespace(value);
    if Blank(value) then Some(NombreObligatorio)
    else if |value.value| < 2 then Some(NombreCorto)
    else None
  }

  /** The verdict of `validateApellido`, the same rule with its own messages. */
  function ApellidoError(value: Option<string>): (m: Option<string>)
    ensures m == Some(ApellidoObligatorio) <==> value.None? || AllWhitespace(value.value)
    ensures m == Some(ApellidoCorto) <==> value.Some? && !AllWhitespace(value.value) && |value.value| < 2
    ensures m == None <==> value.Some? && !AllWhitespace(value.value) && |value.value| >= 2
  {
    BlankIffAllWhitespace(value);
    if Blank(value) then Some(ApellidoObligatorio)
    else if |value.value| < 2 then Some(ApellidoCorto)
    else None
  }

  /** One visible character after a whitespace character is accepted as a name,
      and prepares to a one-character name. */
  lemma PaddedOneLetterNameAccepted(w: char, c: char)
    requires IsWhitespace(w) && !IsWhitespace(c)
    ensures NombreError(Some([w, c])) == None
    ensures Trim([w, c]) == [c]
  {
    var s := [w, c];
    var r := Trim(s);
    var i :| TrimmedAt(s, r, i);
    assert s[1] == c && !AllWhitespace(s);
    TrimEmptyIffAllWhitespace(s);
    assert r != [];
    assert i == 1;
  }

  // ----- selections -----

  /** The verdict of `validateCiudad`: accepted exactly when the value is truthy. */
  function CiudadError(value: JsValue): (m: Option<string>)
    ensures m.None? <==> Truthy(value)
    ensures m.Some? ==> m.value == CiudadRequerida
  {
    if !Truthy(value) then Some(CiudadRequerida) else None
  }

  /** The verdict of `validateOficio`: accepted exactly when the value is truthy. */
  function OficioError(value: JsValue): (m: Option<string>)
    ensures m.None? <==> Truthy(value)
    ensures m.Some? ==> m.value == OficioRequerido
  {
    if !Truthy(value) then Some(OficioRequerido) else None
  }

  /** The verdict of `validateTerminos`: accepted exactly when the value is truthy. */
  function TerminosError(value: JsValue): (m: Option<string>)
    ensures m.None? <==> Truthy(value)
    ensures m.Some? ==> m.value == TerminosRequeridos
  {
    if !Truthy(value) then Some(TerminosRequeridos) else None
  }

  // ----- phone -----

  /** `/^\d{7,15}$/.test(d)`. */
  predicate PhoneDigitsPattern(d: string) {
    7 <= |d| <= 15 && forall i :: 0 <= i < |d| ==> IsDigit(d[i])
  }

  /** The verdict of `validateTelefono`. Whether the phone is accepted depends
      only on how many decimal digits it has; the blank check never decides
      acceptance on its own. */
  function TelefonoError(value: Option<string>): (m: Option<string>)
    ensures m == Some(TelefonoObligatorio) <==> value.None? || AllWhitespace(value.value)
    ensures m == None <==> value.Some? && 7 <= |DigitsOf(value.value)| <= 15
    ensures m.Some? ==> m.value == TelefonoObligatorio || m.value == TelefonoLongitud
  {
    TelefonoBlankFacts(value);
    if Blank(value) then Some(TelefonoObligatorio)
    else if !PhoneDigitsPattern(DigitsOf(value.value)) then Some(TelefonoLongitud)
    else None
  }

  /** A phone with any digit in it is not blank. */
  lemma TelefonoBlankFacts(value: Option<string>)
    ensures Blank(value) <==> value.None? || AllWhitespace(value.value)
    ensures value.Some? && DigitsOf(value.value) != [] ==> !AllWhitespace(value.value)
  {
    BlankIffAllWhitespace(value);
    if value.Some? && DigitsOf(value.value) != [] {
      DigitsOfNotBlank(value.value);
    }
  }

  /** Formatting characters never change whether a phone is accepted. */
  lemma TelefonoIgnoresNonDigits(pre: string, post: string, c: char)
    requires !IsDigit(c)
    ensures TelefonoError(Some(pre + [c] + post)).None? <==> TelefonoError(Some(pre + post)).None?
  {
    DigitsOfIgnoresNonDigit(pre, post, c);
  }

  lemma {:induction false} DigitsOfDigitString(s: string)
    requires forall i :: 0 <= i < |s| ==> IsDigit(s[i])
    ensures DigitsOf(s) == s
  {
    if s != [] {
      DigitsOfDigitString(s[1..]);
    }
  }

  // ----- e-mail -----

  /** A character of `[^\s@]`. */
  predicate EmailRunChar(c: char) {
    !IsWhitespace(c) && c != '@'
  }

  /** `[^\s@]+`. */
  predicate EmailRun(s: string) {
    s != [] && forall i :: 0 <= i < |s| ==> EmailRunChar(s[i])
  }

  /** `s` splits as a run, '@' at `a`, a run, '.' at `b`, a run. */
  predicate EmailSplit(s: string, a: nat, b: nat) {
    && 0 < a < b < |s| && s[a] == '@' && s[b] == '.'
    && EmailRun(s[..a]) && EmailRun(s[a + 1..b]) && EmailRun(s[b + 1..])
  }

  /** `/^[^\s@]+@[^\s@]+\.[^\s@]+$/.test(s)`. */
  predicate EmailPattern(s: string) {
    exists a: nat, b: nat :: a < |s| && b < |s| && EmailSplit(s, a, b)
  }

  /** The only '@' of `s` is at `a`. */
  predicate OnlyAtSignAt(s: string, a: nat) {
    forall i :: 0 <= i < |s| && s[i] == '@' ==> i == a
  }

  /** The domain `s[a + 1..]` has a '.' that is neither its first nor its last character. */
  predicate InnerDot(s: string, a: nat) {
    exists d :: a + 1 < d < |s| - 1 && s[d] == '.'
  }

  /** What the pattern accepts, condition by condition: no whitespace, exactly
      one '@', a non-empty local part, and a '.' strictly inside the domain. */
  predicate EmailShape(s: string) {
    && NoWhitespace(s)
    && exists a :: 0 < a < |s| && s[a] == '@' && OnlyAtSignAt(s, a) && InnerDot(s, a)
  }

  lemma EmailPatternGivesShape(s: string)
    requires EmailPattern(s)
    ensures EmailShape(s)
  {
    var a: nat, b: nat :| a < |s| && b < |s| && EmailSplit(s, a, b);
    EmailSplitGivesShape(s, a, b);
  }

  lemma EmailSplitGivesShape(s: string, a: nat, b: nat)
    requires EmailSplit(s, a, b)
    ensures EmailShape(s)
  {
    assert s[..a] == s[0..a] && s[b + 1..] == s[b + 1..|s|];
    SliceOfRun(s, 0, a);
    SliceOfRun(s, a + 1, b);
    SliceOfRun(s, b + 1, |s|);
    assert NoWhitespace(s) by {
      forall i | 0 <= i < |s| ensures !IsWhitespace(s[i]) {
        if i != a && i != b {
          assert EmailRunChar(s[i]);
        }
      }
    }
    assert OnlyAtSignAt(s, a) by {
      forall i | 0 <= i < |s| && i != a ensures s[i] != '@' {
        if i != b {
          assert EmailRunChar(s[i]);
        }
      }
    }
    assert |s[a + 1..b]| > 0 && |s[b + 1..]| > 0;
    assert InnerDot(s, a);
  }

  lemma EmailShapeGivesPattern(s: string)
    requires EmailShape(s)
    ensures EmailPattern(s)
  {
    var a :| 0 < a < |s| && s[a] == '@' && OnlyAtSignAt(s, a) && InnerDot(s, a);
    var b :| a + 1 < b < |s| - 1 && s[b] == '.';
    forall i | 0 <= i < |s| && i != a ensures EmailRunChar(s[i]) {
    }
    RunOfSlice(s, 0, a);
    RunOfSlice(s, a + 1, b);
    RunOfSlice(s, b + 1, |s|);
    assert s[..a] == s[0..a] && s[b + 1..] == s[b + 1..|s|];
    assert EmailSplit(s, a, b);
  }

  lemma RunOfSlice(s: string, lo: nat, hi: nat)
    requires lo < hi <= |s|
    requires forall i :: lo <= i < hi ==> EmailRunChar(s[i])
    ensures EmailRun(s[lo..hi])
  {
  }

  lemma SliceOfRun(s: string, lo: nat, hi: nat)
    requires lo <= hi <= |s|
    requires EmailRun(s[lo..hi])
    ensures forall i :: lo <= i < hi ==> EmailRunChar(s[i])
  {
    forall i | lo <= i < hi ensures EmailRunChar(s[i]) {
      assert s[lo..hi][i - lo] == s[i];
    }
  }

  /** The e-mail pattern accepts exactly the strings of `EmailShape`. */
  lemma EmailPatternIffShape(s: string)
    ensures EmailPattern(s) <==> EmailShape(s)
  {
    if EmailPattern(s) {
      EmailPatternGivesShape(s);
    }
    if EmailShape(s) {
      EmailShapeGivesPattern(s);
    }
  }

  /** A string of the e-mail shape is not blank, and trimming leaves it alone. */
  lemma EmailShapeNotBlank(s: string)
    requires EmailShape(s)
    ensures !AllWhitespace(s) && Trim(s) == s
  {
    assert !IsWhitespace(s[0]);
    TrimNoWhitespace(s);
  }

  /** The e-mail blank check, stated on the value. */
  lemma EmailBlankFacts(value: Option<string>)
    ensures Blank(value) <==> value.None? || AllWhitespace(value.value)
    ensures value.Some? ==> (EmailPattern(value.value) <==> EmailShape(value.value))
    ensures value.Some? && EmailShape(value.value) ==>
      !AllWhitespace(value.value) && NormalizeEmail(value.value) == ToLowerCase(value.value)
  {
    BlankIffAllWhitespace(value);
    if value.Some? {
      EmailPatternIffShape(value.value);
      if EmailShape(value.value) {
        EmailShapeNotBlank(value.value);
      }
    }
  }

  /** The argument `validateEmail` passes to the duplicate check, if it asks it
      at all: only for a non-blank value of the e-mail shape with the check
      enabled, and then the value lower-cased (the trim has nothing to remove). */
  function EmailQuery(value: Option<string>, checkDuplicate: bool): (q: Option<string>)
    ensures q.Some? <==> value.Some? && EmailShape(value.value) && checkDuplicate
    ensures q.Some? ==> q.value == ToLowerCase(value.value)
  {
    EmailBlankFacts(value);
    if !Blank(value) && EmailPattern(value.value) && checkDuplicate
    then Some(NormalizeEmail(value.value))
    else None
  }

  /** The verdict of `validateEmail`, given the duplicate check as the oracle
      `isRegistered`. */
  function EmailError(value: Option<string>, checkDuplicate: bool, isRegistered: string -> bool): (m: Option<string>)
    ensures m == Some(EmailObligatorio) <==> value.None? || AllWhitespace(value.value)
    ensures m == Some(EmailInvalido) <==> value.Some? && !AllWhitespace(value.value) && !EmailShape(value.value)
    ensures m == Some(EmailRegistrado) <==>
      EmailQuery(value, checkDuplicate).Some? && isRegistered(EmailQuery(value, checkDuplicate).value)
    ensures m == None <==>
      value.Some? && EmailShape(value.value) && !(checkDuplicate && isRegistered(ToLowerCase(value.value)))
  {
    EmailBlankFacts(value);
    if Blank(value) then Some(EmailObligatorio)
    else if !EmailPattern(value.value) then Some(EmailInvalido)
    else if checkDuplicate && isRegistered(NormalizeEmail(value.value)) then Some(EmailRegistrado)
    else None
  }

  /** The verdict depends on the oracle only through its answer on the query:
      with no query, any two oracles give the same verdict, and with one, any two
      that agree on it do. */
  lemma EmailOracleOnlyOnQuery(value: Option<string>, checkDuplicate: bool, o1: string -> bool, o2: string -> bool)
    requires EmailQuery(value, checkDuplicate).None?
      || o1(EmailQuery(value, checkDuplicate).value) == o2(EmailQuery(value, checkDuplicate).value)
    ensures EmailError(value, checkDuplicate, o1) == EmailError(value, checkDuplicate, o2)
  {
  }

  /** With the duplicate check answered by `checkEmailExists`, a failed count
      query lets the e-mail through. */
  lemma DuplicateCheckFailsOpen(value: Option<string>, query: string -> CountResponse)
    requires value.Some? && EmailShape(value.value)
    requires query(ToLowerCase(value.value)).error.Some?
    ensures EmailError(value, true, EmailExistsOracle(query)) == None
  {
  }

  // ----- the shared errors record -----

  /** The seven slots of the `errors` record, as a value. */
  datatype ErrorSlots = ErrorSlots(
    nombre: Option<string>,
    apellido: Option<string>,
    ciudad: Option<string>,
    telefono: Option<string>,
    email: Option<string>,
    oficio: Option<string>,
    terminos: Option<string>)

  const Cleared := ErrorSlots(None, None, None, None, None, None, None)

  predicate AllClear(e: ErrorSlots) {
    e == Cleared
  }

  /** The `errors` record, updated in place by the validators. */
  class ValidationErrors {
    var nombre: Option<string>
    var apellido: Option<string>
    var ciudad: Option<string>
    var telefono: Option<string>
    var email: Option<string>
    var oficio: Option<string>
    var terminos: Option<string>

    constructor ()
      ensures Slots() == Cleared
    {
      nombre, apellido, ciudad, telefono := None, None, None, None;
      email, oficio, terminos := None, None, None;
    }

    function Slots(): ErrorSlots
      reads this
    {
      ErrorSlots(nombre, apellido, ciudad, telefono, email, oficio, terminos)
    }
  }

  method ValidateNombre(value: Option<string>, errors: ValidationErrors) returns (valid: bool)
    modifies errors`nombre
    ensures errors.nombre == NombreError(value)
    ensures valid <==> errors.nombre.None?
  {
    if Blank(value) {
      errors.nombre := Some(NombreObligatorio);
      valid := false;
    } else if |value.value| < 2 {
      errors.nombre := Some(NombreCorto);
      valid := false;
    } else {
      errors.nombre := None;
      valid := true;
    }
  }

  method ValidateApellido(value: Option<string>, errors: ValidationErrors) returns (valid: bool)
    modifies errors`apellido
    ensures errors.apellido == ApellidoError(value)
    ensures valid <==> errors.apellido.None?
  {
    if Blank(value) {
      errors.apellido := Some(ApellidoObligatorio);
      valid := false;
    } else if |value.value| < 2 {
      errors.apellido := Some(ApellidoCorto);
      valid := false;
    } else {
      errors.apellido := None;
      valid := true;
    }
  }

  method ValidateCiudad(value: JsValue, errors: ValidationErrors) returns (valid: bool)
    modifies errors`ciudad
    ensures errors.ciudad == CiudadError(value)
    ensures valid <==> errors.ciudad.None?
  {
    if !Truthy(value) {
      errors.ciudad := Some(CiudadRequerida);
      valid := false;
    } else {
      errors.ciudad := None;
      valid := true;
    }
  }

  method ValidateTelefono(value: Option<string>, errors: ValidationErrors) returns (valid: bool)
    modifies errors`telefono
    ensures errors.telefono == TelefonoError(value)
    ensures valid <==> errors.telefono.None?
  {
    if Blank(value) {
      errors.telefono := Some(TelefonoObligatorio);
      valid := false;
    } else if !PhoneDigitsPattern(DigitsOf(value.value)) {
      errors.telefono := Some(TelefonoLongitud);
      valid := false;
    } else {
      errors.telefono := None;
      valid := true;
    }
  }

  /** `validateEmail`; `queried` is the argument the duplicate check received, if it was asked. */
  method ValidateEmail(value: Option<string>, errors: ValidationErrors, checkDuplicate: bool, isRegistered: string -> bool)
    returns (valid: bool, queried: Option<string>)
    modifies errors`email
    ensures errors.email == EmailError(value, checkDuplicate, isRegistered)
    ensures valid <==> errors.email.None?
    ensures queried == EmailQuery(value, checkDuplicate)
  {
    ghost var expected := EmailError(value, checkDuplicate, isRegistered);
    ghost var expectedQuery := EmailQuery(value, checkDuplicate);
    queried := None;
    if Blank(value) {
      errors.email := Some(EmailObligatorio);
      valid := false;
      return;
    } else if !EmailPattern(value.value) {
      errors.email := Some(EmailInvalido);
      valid := false;
      return;
    }
    if checkDuplicate {
      var key := NormalizeEmail(value.value);
      queried := Some(key);
      var registered := isRegistered(key);
      if registered {
        errors.email := Some(EmailRegistrado);
        valid := false;
        return;
      }
    }
    errors.email := None;
    valid := true;
  }

  method ValidateOficio(value: JsValue, errors: ValidationErrors) returns (valid: bool)
    modifies errors`oficio
    ensures errors.oficio == OficioError(value)
    ensures valid <==> errors.oficio.None?
  {
    if !Truthy(value) {
      errors.oficio := Some(OficioRequerido);
      valid := false;
    } else {
      errors.oficio := None;
      valid := true;
    }
  }

  method ValidateTerminos(value: JsValue, errors: ValidationErrors) returns (valid: bool)
    modifies errors`terminos
    ensures errors.terminos == TerminosError(value)
    ensures valid <==> errors.terminos.None?
  {
    if !Truthy(value) {
      errors.terminos := Some(TerminosRequeridos);
      valid := false;
    } else {
      errors.terminos := None;
      valid := true;
    }
  }

  /** Every slot after `validateForm`: each field's own verdict. The form is
      accepted exactly when every field passes its rule. */
  function FormErrors(form: Form, checkDuplicate: bool, isRegistered: string -> bool): (e: ErrorSlots)
    ensures AllClear(e) <==>
      && form.nombre.Some? && !AllWhitespace(form.nombre.value) && |form.nombre.value| >= 2
      && form.apellido.Some? && !AllWhitespace(form.apellido.value) && |form.apellido.value| >= 2
      && Truthy(form.ciudad)
      && form.telefono.Some? && 7 <= |DigitsOf(form.telefono.value)| <= 15
      && form.email.Some? && EmailShape(form.email.value)
      && !(checkDuplicate && isRegistered(ToLowerCase(form.email.value)))
      && Truthy(form.oficio)
      && Truthy(form.terminos)
  {
    ErrorSlots(
      NombreError(form.nombre),
      ApellidoError(form.apellido),
      CiudadError(form.ciudad),
      TelefonoError(form.telefono),
      EmailError(form.email, checkDuplicate, isRegistered),
      OficioError(form.oficio),
      TerminosError(form.terminos))
  }

  /** `validateForm`: all seven validators run, whatever the earlier ones said,
      so every slot holds its field's verdict; the result is their conjunction. */
  method ValidateForm(form: Form, errors: ValidationErrors, checkEmailDuplicate: bool, isRegistered: string -> bool)
    returns (valid: bool, queried: Option<string>)
    modifies errors
    ensures errors.Slots() == FormErrors(form, checkEmailDuplicate, isRegistered)
    ensures valid <==> AllClear(errors.Slots())
    ensures queried == EmailQuery(form.email, checkEmailDuplicate)
  {
    var validNombre := ValidateNombre(form.nombre, errors);
    var validApellido := ValidateApellido(form.apellido, errors);
    var validCiudad := ValidateCiudad(form.ciudad, errors);
    var validTelefono := ValidateTelefono(form.telefono, errors);
    var validEmail;
    validEmail, queried := ValidateEmail(form.email, errors, checkEmailDuplicate, isRegistered);
    var validOficio := ValidateOficio(form.oficio, errors);
    var validTerminos := ValidateTerminos(form.terminos, errors);
    valid := validNombre && validApellido && validCiudad && validTelefono && validEmail && validOficio && validTerminos;
  }

  /** `clearErrors`: every slot back to `null`. */
  method ClearErrors(errors: ValidationErrors)
    modifies errors
    ensures errors.Slots() == Cleared
  {
    errors.nombre := None;
    errors.apellido := None;
    errors.ciudad := None;
    errors.telefono := None;
    errors.email := None;
    errors.oficio := None;
    errors.terminos := None;
  }

  // ----- validation and preparation together -----

  /** A form the validator accepts can be prepared, its prepared name, family
      name and phone are non-empty, and its prepared e-mail is exactly the key
      the duplicate check was asked about. */
  lemma AcceptedFormPrepares(form: Form, checkDuplicate: bool, isRegistered: string -> bool)
    requires AllClear(FormErrors(form, checkDuplicate, isRegistered))
    ensures Preparable(form)
    ensures PrepareParticipanteData(form).nombre != []
    ensures PrepareParticipanteData(form).apellido != []
    ensures PrepareParticipanteData(form).telefono != []
    ensures checkDuplicate ==> EmailQuery(form.email, checkDuplicate) == Some(PrepareParticipanteData(form).email)
    ensures checkDuplicate ==> !isRegistered(PrepareParticipanteData(form).email)
  {
    var e := FormErrors(form, checkDuplicate, isRegistered);
    assert Preparable(form);
    var d := PrepareParticipanteData(form);
    assert d.nombre != [] by {
      TrimEmptyIffAllWhitespace(form.nombre.value);
    }
    assert d.apellido != [] by {
      TrimEmptyIffAllWhitespace(form.apellido.value);
    }
    assert d.telefono != [] by {
      DigitsOfNotBlank(form.telefono.value);
      TrimEmptyIffAllWhitespace(form.telefono.value);
    }
    assert d.email == NormalizeEmail(form.email.value);
    EmailBlankFacts(form.email);
  }
}
