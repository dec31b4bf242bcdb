/** The three-step registration dialog (src/components/auth/RegisterDialog.tsx):
    names, then role, then contact and password details, with the checks
    that guard each move and the request the last step sends. */
module Registration {
  import opened Wrappers
  import JsText
  import Json
  import Browser

  datatype Role = Customer | Seller

  /** The role as the form stores and sends it. */
  function RoleName(r: Role): string {
    match r
    case Customer => "customer"
    case Seller => "seller"
  }

  /** The `formData` record. */
  datatype RegisterForm = RegisterForm(
    firstName: string,
    lastName: string,
    role: Role,
    businessName: string,
    email: string,
    phoneNumber: string,
    password: string,
    confirmPassword: string)

  /** The text fields that have an input bound through `handleChange`. */
  datatype TextField = FirstName | LastName | BusinessName | Email | PhoneNumber | Password | ConfirmPassword

  /** The record the dialog opens with and returns to after a registration. */
  const InitialForm := RegisterForm("", "", Customer, "", "", "", "", "")

  const NamesMessage := "Please enter both first and last name"
  const MismatchMessage := "Passwords do not match"
  const ShortMessage := "Password must be at least 6 characters long"
  const BusinessMessage := "Business name is required for sellers"
  const FailedMessage := "Registration failed"
  const ConnectMessage := "Failed to connect to server"
  const MinPasswordLength := 6

  function Get(f: RegisterForm, field: TextField): string {
    match field
    case FirstName => f.firstName
    case LastName => f.lastName
    case BusinessName => f.businessName
    case Email => f.email
    case PhoneNumber => f.phoneNumber
    case Password => f.password
    case ConfirmPassword => f.confirmPassword
  }

  /** `{ ...formData, [field]: value }`: that field takes the value and
      every other field, the role included, keeps its own. */
  function With(f: RegisterForm, field: TextField, value: string): (r: RegisterForm)
    ensures Get(r, field) == value
    ensures forall g: TextField :: g != field ==> Get(r, g) == Get(f, g)
    ensures r.role == f.role
  {
    match field
    case FirstName => f.(firstName := value)
    case LastName => f.(lastName := value)
    case BusinessName => f.(businessName := value)
    case Email => f.(email := value)
    case PhoneNumber => f.(phoneNumber := value)
    case Password => f.(password := value)
    case ConfirmPassword => f.(confirmPassword := value)
  }

  /** Setting a field to the value it has changes nothing, and two edits of
      the same field keep only the second. */
  lemma WithLaws(f: RegisterForm, field: TextField, a: string, b: string)
    ensures With(f, field, Get(f, field)) == f
    ensures With(With(f, field, a), field, b) == With(f, field, b)
  {
  }

  /** The step-1 guard holds: both names have a non-blank character. */
  predicate NamesGiven(f: RegisterForm) {
    JsText.Trim(f.firstName) != "" && JsText.Trim(f.lastName) != ""
  }

  /** The first failing check of `handleRegister`, in the order it makes
      them: matching passwords, then the length, then a seller's business
      name. */
  function RegisterError(f: RegisterForm): (e: Option<string>)
    ensures e == Some(MismatchMessage) <==> f.password != f.confirmPassword
    ensures e == Some(ShortMessage) <==> f.password == f.confirmPassword && |f.password| < MinPasswordLength
    ensures e == Some(BusinessMessage) <==>
      f.password == f.confirmPassword && |f.password| >= MinPasswordLength &&
      f.role == Seller && JsText.Trim(f.businessName) == ""
    ensures e == None <==>
      f.password == f.confirmPassword && |f.password| >= MinPasswordLength &&
      (f.role == Seller ==> JsText.Trim(f.businessName) != "")
  {
    if f.password != f.confirmPassword then Some(MismatchMessage)
    else if |f.password| < MinPasswordLength then Some(ShortMessage)
    else if f.role == Seller && JsText.Trim(f.businessName) == "" then Some(BusinessMessage)
    else None
  }

  /** A customer never fails the business-name check, whatever the field
      holds. */
  lemma CustomerIgnoresBusinessName(f: RegisterForm, name: string)
    requires f.role == Customer
    ensures RegisterError(f.(businessName := name)) == RegisterError(f)
  {
  }

  /** The JSON body, as its keys and values in the order they are written. */
  type Body = seq<(string, string)>

  function Keys(b: Body): (ks: seq<string>)
    ensures |ks| == |b|
    ensures forall i :: 0 <= i < |b| ==> ks[i] == b[i].0
  {
    seq(|b|, i requires 0 <= i < |b| => b[i].0)
  }

  /** The value under the first occurrence of `key`; the bodies built here
      never repeat a key. */
  function Lookup(b: Body, key: string): (v: Option<string>)
    ensures v.Some? ==> (key, v.value) in b
    decreases |b|
  {
    if b == [] then None
    else if b[0].0 == key then Some(b[0].1)
    else Lookup(b[1..], key)
  }

  /** A key is found exactly when the body has it. */
  lemma {:induction false} LookupFinds(b: Body, key: string)
    ensures Lookup(b, key).Some? <==> key in Keys(b)
    decreases |b|
  {
    if b != [] {
      LookupFinds(b[1..], key);
      assert Keys(b) == [b[0].0] + Keys(b[1..]);
    }
  }

  /** The body `handleRegister` sends. */
  function RegisterPayload(f: RegisterForm): (body: Body)
    ensures Keys(body) == ["firstName", "lastName", "email", "password", "phoneNumber", "role"] +
                           (if f.role == Seller then ["businessName"] else [])
    ensures ("businessName" in Keys(body)) <==> f.role == Seller
    ensures "confirmPassword" !in Keys(body)
  {
    [("firstName", f.firstName), ("lastName", f.lastName), ("email", f.email),
     ("password", f.password), ("phoneNumber", f.phoneNumber), ("role", RoleName(f.role))] +
    (if f.role == Seller then [("businessName", f.businessName)] else [])
  }

  /** The form a body describes, reading `confirmPassword` as the password
      and a missing business name as "". */
  function FormOfPayload(b: Body): Option<RegisterForm> {
    match (Lookup(b, "firstName"), Lookup(b, "lastName"), Lookup(b, "email"),
           Lookup(b, "password"), Lookup(b, "phoneNumber"), Lookup(b, "role"))
    case (Some(first), Some(last), Some(email), Some(password), Some(phone), Some(role)) =>
      if role == "customer" || role == "seller" then
        Some(RegisterForm(first, last, if role == "seller" then Seller else Customer,
                          Lookup(b, "businessName").GetOr(""), email, phone, password, password))
      else None
    case _ => None
  }

  /** The body loses nothing the backend needs: from a form that passed the
      checks, it gives back the whole form, except that a customer's
      business name is never sent. */
  lemma PayloadRoundTrip(f: RegisterForm)
    requires RegisterError(f) == None
    ensures FormOfPayload(RegisterPayload(f)) == Some(if f.role == Seller then f else f.(businessName := ""))
  {
    PayloadValues(f);
  }

  /** What the backend answers, or that it could not be reached. */
  datatype RegisterResponse =
    | Registered(token: string, user: Json.Object)
    | Refused(message: Option<string>)
    | Unreachable

  class RegisterDialog {
    var step: int
    var form: RegisterForm
    var error: string

    ghost predicate Valid()
      reads this
    {
      1 <= step <= 3
    }

    /** The Back button is shown on steps 2 and 3. */
    predicate ShowsBack()
      reads this
      ensures Valid() ==> (ShowsBack() <==> step == 2 || step == 3)
    {
      step > 1
    }

    constructor()
      ensures Valid() && step == 1 && form == InitialForm && error == ""
    {
      step := 1;
      form := InitialForm;
      error := "";
    }

    /** `handleChange(field)`: the field takes the typed value and the error
        is cleared. */
    method Change(field: TextField, value: string)
      modifies this
      ensures form == With(old(form), field, value) && error == ""
      ensures step == old(step)
    {
      form := With(form, field, value);
      error := "";
    }

    /** The role cards: only the role changes; the error stays. */
    method ChooseRole(r: Role)
      modifies this
      ensures form == old(form).(role := r)
      ensures step == old(step) && error == old(error)
    {
      form := form.(role := r);
    }

    /** `handleNext`: step 1 moves on only with both names given, step 2
        always moves on, step 3 stays. */
    method Next()
      requires Valid()
      modifies this
      ensures Valid() && form == old(form)
      ensures old(step) == 1 && NamesGiven(form) ==> step == 2 && error == old(error)
      ensures old(step) == 1 && !NamesGiven(form) ==> step == 1 && error == NamesMessage
      ensures old(step) == 2 ==> step == 3 && error == old(error)
      ensures old(step) == 3 ==> step == 3 && error == old(error)
      ensures step == old(step) || step == old(step) + 1
    {
      if step == 1 {
        if JsText.Trim(form.firstName) == "" || JsText.Trim(form.lastName) == "" {
          error := NamesMessage;
          return;
        }
        step := 2;
      } else if step == 2 {
        step := 3;
      }
    }

    /** `handleBack`: one step back and the error cleared, unless already on
        step 1. */
    method Back()
      requires Valid()
      modifies this
      ensures Valid() && form == old(form)
      ensures old(step) > 1 ==> step == old(step) - 1 && error == ""
      ensures old(step) == 1 ==> step == 1 && error == old(error)
    {
      if step > 1 {
        step := step - 1;
        error := "";
      }
    }

    /** `handleRegister`. A failed check sets its message and sends nothing.
        Otherwise the body is sent and `response` is the outcome: on success
        the token and the user record are stored, the dialog is reset and
        the page goes to /profile; otherwise the error shows why. */
    method Register(store: Browser.LocalStorage, response: RegisterResponse)
      returns (request: Option<Body>, redirect: bool)
      requires Valid()
      modifies this, store
      ensures Valid()
      ensures request.Some? <==> RegisterError(old(form)) == None
      ensures request.Some? ==> request.value == RegisterPayload(old(form))
      ensures redirect <==> request.Some? && response.Registered?
      ensures RegisterError(old(form)).Some? ==>
        error == RegisterError(old(form)).value && step == old(step) && form == old(form) &&
        store.items == old(store.items)
      ensures request.Some? && response.Registered? ==>
        step == 1 && form == InitialForm && error == "" &&
        store.items == old(store.items)[Browser.TokenKey := Browser.Text(response.token)]
                                       [Browser.UserKey := Browser.JsonObject(response.user)]
      ensures request.Some? && response.Refused? ==>
        error == Json.MessageOr(response.message, FailedMessage) && step == old(step) && form == old(form) &&
        store.items == old(store.items)
      ensures request.Some? && response.Unreachable? ==>
        error == ConnectMessage && step == old(step) && form == old(form) &&
        store.items == old(store.items)
    {
      error := "";
      var check := RegisterError(form);
      if check.Some? {
        error := check.value;
        return None, false;
      }
      request := Some(RegisterPayload(form));
      match response
      case Registered(token, user) =>
        store.SetItem(Browser.TokenKey, Browser.Text(token));
        store.SetItem(Browser.UserKey, Browser.JsonObject(user));
        form := InitialForm;
        step := 1;
        error := "";
        redirect := true;
      case Refused(message) =>
        error := Json.MessageOr(message, FailedMessage);
        redirect := false;
      case Unreachable =>
        error := ConnectMessage;
        redirect := false;
    }

    /** The main button: "Create Account" on step 3, "Next" before it. */
    method Proceed(store: Browser.LocalStorage, response: RegisterResponse)
      returns (request: Option<Body>, redirect: bool)
      requires Valid()
      modifies this, store
      ensures Valid()
      ensures old(step) < 3 ==> request == None && !redirect && form == old(form) &&
                                store.items == old(store.items)
      ensures old(step) == 1 && NamesGiven(old(form)) ==> step == 2 && error == old(error)
      ensures old(step) == 1 && !NamesGiven(old(form)) ==> step == 1 && error == NamesMessage
      ensures old(step) == 2 ==> step == 3 && error == old(error)
      ensures old(step) == 3 ==> (request.Some? <==> RegisterError(old(form)) == None)
      ensures old(step) == 3 && request.Some? ==> request.value == RegisterPayload(old(form))
      ensures old(step) == 3 ==> (redirect <==> request.Some? && response.Registered?)
      ensures old(step) == 3 && RegisterError(old(form)).Some? ==>
        error == RegisterError(old(form)).value && step == 3 && form == old(form) &&
        store.items == old(store.items)
      ensures old(step) == 3 && request.Some? && response.Registered? ==>
        step == 1 && form == InitialForm && error == "" &&
        store.items == old(store.items)[Browser.TokenKey := Browser.Text(response.token)]
                                       [Browser.UserKey := Browser.JsonObject(response.user)]
      ensures old(step) == 3 && request.Some? && response.Refused? ==>
        error == Json.MessageOr(response.message, FailedMessage) && step == 3 && form == old(form) &&
        store.items == old(store.items)
      ensures old(step) == 3 && request.Some? && response.Unreachable? ==>
        error == ConnectMessage && step == 3 && form == old(form) &&
        store.items == old(store.items)
    {
      if step == 3 {
        request, redirect := Register(store, response);
      } else {
        Next();
        request, redirect := None, false;
      }
    }
  }

  /** Every field the body carries holds the form's own value, and the
      business name is sent exactly for a seller. */
  lemma PayloadValues(f: RegisterForm)
    ensures Lookup(RegisterPayload(f), "firstName") == Some(f.firstName)
    ensures Lookup(RegisterPayload(f), "lastName") == Some(f.lastName)
    ensures Lookup(RegisterPayload(f), "email") == Some(f.email)
    ensures Lookup(RegisterPayload(f), "password") == Some(f.password)
    ensures Lookup(RegisterPayload(f), "phoneNumber") == Some(f.phoneNumber)
    ensures Lookup(RegisterPayload(f), "role") == Some(RoleName(f.role))
    ensures Lookup(RegisterPayload(f), "businessName") == if f.role == Seller then Some(f.businessName) else None
  {
    var tail: Body := if f.role == Seller then [("businessName", f.businessName)] else [];
    var b5: Body := [("role", RoleName(f.role))] + tail;
    var b4: Body := [("phoneNumber", f.phoneNumber)] + b5;
    var b3: Body := [("password", f.password)] + b4;
    var b2: Body := [("email", f.email)] + b3;
    var b1: Body := [("lastName", f.lastName)] + b2;
    var b: Body := [("firstName", f.firstName)] + b1;
    assert RegisterPayload(f) == b;
    assert b[1..] == b1 && b1[1..] == b2 && b2[1..] == b3 && b3[1..] == b4 && b4[1..] == b5 && b5[1..] == tail;
    assert Lookup(b, "email") == Lookup(b2, "email");
    assert Lookup(b, "password") == Lookup(b2, "password") == Lookup(b3, "password");
    assert Lookup(b, "phoneNumber") == Lookup(b2, "phoneNumber") == Lookup(b4, "phoneNumber");
    assert Lookup(b, "role") == Lookup(b2, "role") == Lookup(b4, "role") == Lookup(b5, "role");
    assert Lookup(b, "businessName") == Lookup(b2, "businessName") == Lookup(b4, "businessName") == Lookup(tail, "businessName");
    assert Lookup(tail, "businessName") == if f.role == Seller then Some(f.businessName) else None by {
      if f.role == Seller {
        assert tail[0].0 == "businessName";
      }
    }
  }
}
