/**
 * The pure part of the checkout page: the text predicates behind its
 * inputs and its submit button (`validarEmail`, `camposValidos`, the
 * character filter of the name inputs), the validation order of `pagar`,
 * the order payload it sends to the payment gateway, and how the
 * gateway's answer is read.
 *
 * Whitespace is the set that JavaScript's `\s` and `String.prototype.trim`
 * share (ECMAScript WhiteSpace and LineTerminator).
 */
module Checkout {
  import opened Wrappers
  import opened Cart

  // ---------------------------------------------------------------------
  // Whitespace and trimming
  // ---------------------------------------------------------------------

  /** ECMAScript whitespace and line terminators: what `\s` matches and `trim` strips. */
  predicate IsSpace(c: char)
  {
    || c == '\t' || c == '\n' || c == '\U{B}' || c == '\U{C}' || c == '\r' || c == ' '
    || c == '\U{A0}' || c == '\U{1680}' || ('\U{2000}' <= c <= '\U{200A}')
    || c == '\U{2028}' || c == '\U{2029}' || c == '\U{202F}' || c == '\U{205F}'
    || c == '\U{3000}' || c == '\U{FEFF}'
  }

  /** Every character is whitespace (the empty string included). */
  predicate Blank(s: string)
  {
    forall c | c in s :: IsSpace(c)
  }

  /** `s` without its leading whitespace: empty exactly for a blank `s`, and otherwise starting with a non-space. */
  function TrimStart(s: string): (r: string)
    ensures r == [] <==> Blank(s)
    ensures r != [] ==> !IsSpace(r[0])
  {
    if s != [] && IsSpace(s[0]) then
      var r := TrimStart(s[1..]);
      assert s == [s[0]] + s[1..];
      r
    else
      assert s != [] ==> s[0] in s;
      s
  }

  /** `s` without its trailing whitespace: empty exactly for a blank `s`, and otherwise ending with a non-space. */
  function TrimEnd(s: string): (r: string)
    ensures r == [] <==> Blank(s)
    ensures r != [] ==> !IsSpace(r[|r| - 1])
  {
    if s != [] && IsSpace(s[|s| - 1]) then
      var r := TrimEnd(s[..|s| - 1]);
      assert s == s[..|s| - 1] + [s[|s| - 1]];
      r
    else
      assert s != [] ==> s[|s| - 1] in s;
      s
  }

  /** What `TrimStart` strips is a blank prefix: the rest is a suffix of `s`. */
  lemma {:induction false} TrimStartSuffix(s: string)
    ensures |TrimStart(s)| <= |s| && TrimStart(s) == s[|s| - |TrimStart(s)|..]
    ensures Blank(s[..|s| - |TrimStart(s)|])
  {
    if s != [] && IsSpace(s[0]) {
      TrimStartSuffix(s[1..]);
      var r := TrimStart(s[1..]);
      assert s[..|s| - |r|] == [s[0]] + s[1..][..|s| - 1 - |r|];
    }
  }

  /** What `TrimEnd` strips is a blank suffix: the rest is a prefix of `s`. */
  lemma {:induction false} TrimEndPrefix(s: string)
    ensures |TrimEnd(s)| <= |s| && TrimEnd(s) == s[..|TrimEnd(s)|]
    ensures Blank(s[|TrimEnd(s)|..])
  {
    if s != [] && IsSpace(s[|s| - 1]) {
      TrimEndPrefix(s[..|s| - 1]);
      var r := TrimEnd(s[..|s| - 1]);
      assert s[|r|..] == s[..|s| - 1][|r|..] + [s[|s| - 1]];
    }
  }

  /**
   * `s.trim()`: empty exactly when `s` is all whitespace, and otherwise
   * starting and ending with a non-space.
   */
  function Trim(s: string): (r: string)
    ensures r == [] <==> Blank(s)
    ensures r != [] ==> !IsSpace(r[0]) && !IsSpace(r[|r| - 1])
  {
    var t := TrimStart(s);
    var r := TrimEnd(t);
    TrimEndPrefix(t);
    assert r != [] ==> r[0] == t[0];
    r
  }

  /** `s.trim()` is the piece of `s` left between its leading and its trailing whitespace. */
  lemma TrimInfix(s: string)
    ensures exists i | 0 <= i <= |s| - |Trim(s)| ::
      s[i..i + |Trim(s)|] == Trim(s) && Blank(s[..i]) && Blank(s[i + |Trim(s)|..])
  {
    var t := TrimStart(s);
    var r := TrimEnd(t);
    var i := |s| - |t|;
    TrimStartSuffix(s);
    assert Blank(s[..i]);
    TrimEndPrefix(t);
    assert Blank(t[|r|..]);
    assert s[i..i + |r|] == r;
    assert s[i + |r|..] == t[|r|..];
    assert Trim(s) == r;
    assert 0 <= i <= |s| - |Trim(s)| && s[i..i + |Trim(s)|] == Trim(s) && Blank(s[..i]) && Blank(s[i + |Trim(s)|..]);
  }

  // ---------------------------------------------------------------------
  // The name filter
  // ---------------------------------------------------------------------

  /** One character of the class `[a-zA-ZáéíóúÁÉÍÓÚüÜ\s]`. */
  predicate NameChar(c: char)
  {
    ('a' <= c <= 'z') || ('A' <= c <= 'Z') || c in "áéíóúÁÉÍÓÚüÜ" || IsSpace(c)
  }

  /**
   * `/^[a-zA-ZáéíóúÁÉÍÓÚüÜ\s]*$/.test(value)`, matched one character at a
   * time: the edits the name inputs accept are those made only of
   * characters of the class.
   */
  predicate NameAccepted(value: string)
    ensures NameAccepted(value) <==> forall i | 0 <= i < |value| :: NameChar(value[i])
  {
    value == [] || (NameChar(value[0]) && NameAccepted(value[1..]))
  }

  // ---------------------------------------------------------------------
  // validarEmail
  // ---------------------------------------------------------------------

  /** The number of occurrences of `c` in `s`. */
  function CountChar(s: string, c: char): nat
  {
    if s == [] then 0 else (if s[0] == c then 1 else 0) + CountChar(s[1..], c)
  }

  /** The index of the first `c` in `s`, or `|s|` when there is none. */
  function IndexOf(s: string, c: char): (i: nat)
    ensures i <= |s|
    ensures i < |s| ==> s[i] == c
    ensures forall k | 0 <= k < i :: s[k] != c
  {
    if s == [] then 0 else if s[0] == c then 0 else 1 + IndexOf(s[1..], c)
  }

  /** `d` has a `.` that is neither its first nor its last character. */
  predicate HasInnerDot(d: string)
  {
    exists k | 0 < k < |d| - 1 :: d[k] == '.'
  }

  /**
   * `validarEmail`: no whitespace, exactly one `@` with something before it,
   * and after it a `.` with something on both sides; such an address has at
   * least five characters and is not blank.
   */
  predicate ValidEmail(s: string)
    ensures ValidEmail(s) ==> |s| >= 5 && !Blank(s)
  {
    var at := IndexOf(s, '@');
    assert s != [] ==> s[0] in s;
    && (forall c | c in s :: !IsSpace(c))
    && CountChar(s, '@') == 1
    && 0 < at < |s|
    && HasInnerDot(s[at + 1..])
  }

  /** A match of `[^\s@]+`. */
  predicate Token(t: string)
  {
    |t| > 0 && forall c | c in t :: !IsSpace(c) && c != '@'
  }

  /** The strings that `/^[^\s@]+@[^\s@]+\.[^\s@]+$/` matches. */
  ghost predicate MatchesEmailPattern(s: string)
  {
    exists a, b, c | Token(a) && Token(b) && Token(c) :: s == a + "@" + b + "." + c
  }

  lemma {:induction false} CountCharAppend(a: string, b: string, c: char)
    ensures CountChar(a + b, c) == CountChar(a, c) + CountChar(b, c)
  {
    if a == [] {
      assert a + b == b;
    } else {
      assert (a + b)[1..] == a[1..] + b;
      CountCharAppend(a[1..], b, c);
    }
  }

  lemma {:induction false} CountCharZero(s: string, c: char)
    ensures CountChar(s, c) == 0 <==> c !in s
  {
    if s != [] {
      CountCharZero(s[1..], c);
      assert s == [s[0]] + s[1..];
    }
  }

  /** With a single `@`, nothing after the first `@` is another `@`. */
  lemma {:induction false} SingleAt(s: string)
    requires CountChar(s, '@') == 1 && IndexOf(s, '@') < |s|
    ensures '@' !in s[IndexOf(s, '@') + 1..]
  {
    if s[0] == '@' {
      CountCharZero(s[1..], '@');
    } else {
      SingleAt(s[1..]);
      assert s[IndexOf(s, '@') + 1..] == s[1..][IndexOf(s[1..], '@') + 1..];
    }
  }

  /** After a prefix without `c`, the first `c` is the one that follows the prefix. */
  lemma {:induction false} IndexOfAfter(a: string, rest: string, c: char)
    requires c !in a
    ensures IndexOf(a + [c] + rest, c) == |a|
  {
    if a == [] {
      assert a + [c] + rest == [c] + rest;
    } else {
      assert (a + [c] + rest)[1..] == a[1..] + [c] + rest;
      assert a[0] in a;
      IndexOfAfter(a[1..], rest, c);
    }
  }

  /** Joining two parts without `@` by one `@` gives exactly one `@`. */
  lemma OneAt(a: string, d: string)
    requires '@' !in a && '@' !in d
    ensures CountChar(a + ['@'] + d, '@') == 1
  {
    CountCharZero(a, '@');
    CountCharZero(d, '@');
    CountCharAppend(a + ['@'], d, '@');
    CountCharAppend(a, ['@'], '@');
  }

  /** Every character of a slice is a character of the whole. */
  lemma SliceChars(s: string, i: int, j: int)
    requires 0 <= i <= j <= |s|
    ensures forall ch | ch in s[i..j] :: ch in s
  {
    forall ch | ch in s[i..j] ensures ch in s {
      var k :| 0 <= k < j - i && s[i..j][k] == ch;
      assert s[i + k] == ch;
    }
  }

  /** A non-empty prefix of a string without whitespace that ends before its first `@` is a token. */
  lemma PrefixToken(s: string, at: int)
    requires 0 < at <= IndexOf(s, '@') && forall ch | ch in s :: !IsSpace(ch)
    ensures Token(s[..at])
  {
    forall ch | ch in s[..at] ensures !IsSpace(ch) && ch != '@' {
      var i :| 0 <= i < at && s[..at][i] == ch;
      assert s[i] == ch;
    }
  }

  /** A non-empty slice of a string without whitespace or `@` is a token. */
  lemma SliceToken(d: string, i: int, j: int)
    requires 0 <= i < j <= |d| && forall ch | ch in d :: !IsSpace(ch) && ch != '@'
    ensures Token(d[i..j])
  {
    SliceChars(d, i, j);
  }

  /** A `.` strictly inside a string of token characters splits it into two tokens. */
  lemma DotSplit(d: string, k: int)
    requires 0 < k < |d| - 1 && d[k] == '.'
    requires forall ch | ch in d :: !IsSpace(ch) && ch != '@'
    ensures Token(d[..k]) && Token(d[k + 1..]) && d == d[..k] + "." + d[k + 1..]
  {
    SliceToken(d, 0, k);
    SliceToken(d, k + 1, |d|);
    assert d[..k] == d[0..k] && d[k + 1..] == d[k + 1..|d|];
  }

  /**
   * A token, then `@`, then a part without whitespace or `@` that has a `.`
   * strictly inside: the regular expression of `validarEmail` matches.
   */
  lemma MatchedFromParts(s: string, at: int, k: int)
    requires 0 < at < |s| && s[at] == '@' && Token(s[..at])
    requires forall ch | ch in s[at + 1..] :: !IsSpace(ch) && ch != '@'
    requires 0 < k < |s| - at - 2 && s[at + 1 + k] == '.'
    ensures MatchesEmailPattern(s)
  {
    var d := s[at + 1..];
    DotSplit(d, k);
    assert s == s[..at] + "@" + d;
    assert s == s[..at] + "@" + d[..k] + "." + d[k + 1..];
  }

  /** Every string `validarEmail` accepts is matched by its regular expression. */
  lemma ValidEmailIsMatched(s: string)
    requires ValidEmail(s)
    ensures MatchesEmailPattern(s)
  {
    var at := IndexOf(s, '@');
    SingleAt(s);
    SliceChars(s, at + 1, |s|);
    PrefixToken(s, at);
    var k :| 0 < k < |s[at + 1..]| - 1 && s[at + 1..][k] == '.';
    MatchedFromParts(s, at, k);
  }

  /** Every string the regular expression matches is accepted by `validarEmail`. */
  lemma MatchedIsValidEmail(s: string, a: string, b: string, c: string)
    requires Token(a) && Token(b) && Token(c) && s == a + "@" + b + "." + c
    ensures ValidEmail(s)
  {
    var d := b + "." + c;
    assert s == a + ['@'] + d;
    assert '@' !in d && forall ch | ch in d :: !IsSpace(ch) by {
      forall ch | ch in d ensures ch != '@' && !IsSpace(ch) {
        assert ch in b || ch == '.' || ch in c;
      }
    }
    assert forall ch | ch in s :: !IsSpace(ch) by {
      forall ch | ch in s ensures !IsSpace(ch) {
        assert ch in a || ch == '@' || ch in d;
      }
    }
    OneAt(a, d);
    IndexOfAfter(a, d, '@');
    assert s[|a| + 1..] == d;
    assert d[|b|] == '.';
  }

  /** `validarEmail` accepts exactly the strings its regular expression matches. */
  lemma ValidEmailMatchesPattern(s: string)
    ensures ValidEmail(s) <==> MatchesEmailPattern(s)
  {
    if ValidEmail(s) {
      ValidEmailIsMatched(s);
    }
    if MatchesEmailPattern(s) {
      var a, b, c :| Token(a) && Token(b) && Token(c) && s == a + "@" + b + "." + c;
      MatchedIsValidEmail(s, a, b, c);
    }
  }

  // ---------------------------------------------------------------------
  // camposValidos and the validation order of pagar
  // ---------------------------------------------------------------------

  /**
   * `camposValidos`, the submit button's enabling condition (besides
   * `loading`): both names have a non-space character, the email matches
   * the regular expression of `validarEmail`, and the cart has a line.
   */
  predicate FieldsValid(nombre: string, apellido: string, email: string, cart: seq<CartItem>)
    ensures FieldsValid(nombre, apellido, email, cart) <==>
      !Blank(nombre) && !Blank(apellido) && MatchesEmailPattern(email) && cart != []
  {
    ValidEmailMatchesPattern(email);
    Trim(nombre) != [] && Trim(apellido) != [] && ValidEmail(email) && |cart| > 0
  }

  /** The outcome of `pagar`'s checks: the first that fails, or `Ready`. */
  datatype Verdict = MissingFields | InvalidEmail | EmptyCart | Ready

  /**
   * `pagar`'s checks in their order: blank fields, then the email shape,
   * then the cart. They all pass exactly when `camposValidos` holds, so the
   * enabled button never meets a validation error, and every error names
   * the first rule of `camposValidos` that fails.
   */
  function Check(nombre: string, apellido: string, email: string, cart: seq<CartItem>): (v: Verdict)
    ensures v == Ready <==> FieldsValid(nombre, apellido, email, cart)
  {
    if Trim(nombre) == [] || Trim(apellido) == [] || Trim(email) == [] then MissingFields
    else if !ValidEmail(email) then InvalidEmail
    else if |cart| == 0 then EmptyCart
    else Ready
  }

  /** Each error verdict of `pagar` is given exactly when its check is the first to fail. */
  lemma CheckFirstFailure(nombre: string, apellido: string, email: string, cart: seq<CartItem>)
    ensures Check(nombre, apellido, email, cart) == MissingFields <==>
      Blank(nombre) || Blank(apellido) || Blank(email)
    ensures Check(nombre, apellido, email, cart) == InvalidEmail <==>
      !Blank(nombre) && !Blank(apellido) && !Blank(email) && !ValidEmail(email)
    ensures Check(nombre, apellido, email, cart) == EmptyCart <==>
      !Blank(nombre) && !Blank(apellido) && ValidEmail(email) && cart == []
  {
  }

  /** The notice for a verdict: empty exactly when every check passed. */
  function VerdictMessage(v: Verdict): (m: string)
    ensures m == "" <==> v == Ready
  {
    match v
    case MissingFields => "Por favor completá todos los campos"
    case InvalidEmail => "Por favor ingresá un email válido"
    case EmptyCart => "Carrito vacío"
    case Ready => ""
  }

  // ---------------------------------------------------------------------
  // The order payload
  // ---------------------------------------------------------------------

  /** One element of `items`: `{producto_id, name, price, cantidad}`. */
  datatype OrderItem = OrderItem(productoId: int, name: string, price: int, cantidad: int)

  /** The request body `{cliente, email, items}`. */
  datatype Order = Order(cliente: string, email: string, items: seq<OrderItem>)

  /** The amount the items ask for: the sum of `price * cantidad`. */
  function Charge(items: seq<OrderItem>): int
  {
    if items == [] then 0 else items[0].price * items[0].cantidad + Charge(items[1..])
  }

  /** The number of units the items ask for: the sum of `cantidad`. */
  function Units(items: seq<OrderItem>): int
  {
    if items == [] then 0 else items[0].cantidad + Units(items[1..])
  }

  /**
   * `cart.map(p => ({producto_id: p.id, name: p.name, price: p.price, cantidad: p.quantity}))`,
   * one line at a time: one item per line in cart order, so the items charge
   * the summary's `total` and ask for its unit count.
   */
  function Items(cart: seq<CartItem>): (r: seq<OrderItem>)
    ensures |r| == |cart|
    ensures forall i | 0 <= i < |cart| ::
      && r[i].productoId == cart[i].id && r[i].name == cart[i].name
      && r[i].price == cart[i].price && r[i].cantidad == cart[i].quantity
    ensures Charge(r) == Total(cart) && Units(r) == Count(cart)
  {
    if cart == [] then []
    else
      var rest := Items(cart[1..]);
      var r := [OrderItem(cart[0].id, cart[0].name, cart[0].price, cart[0].quantity)] + rest;
      assert r[1..] == rest;
      r
  }

  /**
   * The body `pagar` posts: `cliente` is the name, one space and the
   * surname, the email goes as typed, and the items ask for the cart.
   */
  function BuildOrder(nombre: string, apellido: string, email: string, cart: seq<CartItem>): (o: Order)
    ensures |o.cliente| == |nombre| + 1 + |apellido|
    ensures o.cliente[..|nombre|] == nombre && o.cliente[|nombre|] == ' ' && o.cliente[|nombre| + 1..] == apellido
    ensures o.email == email
    ensures o.items == Items(cart) && Charge(o.items) == Total(cart) && Units(o.items) == Count(cart)
  {
    Order(nombre + " " + apellido, email, Items(cart))
  }

  // ---------------------------------------------------------------------
  // The gateway's answer
  // ---------------------------------------------------------------------

  /**
   * What the payment gateway call yields: a response body whose `init_point`
   * is present (`Some`) or missing (`None`), or a failure of the request or
   * of reading its body.
   */
  datatype GatewayResponse = Responded(initPoint: Option<string>) | NetworkError

  /** Where a submission ends: navigation to the payment link, or a notice. */
  datatype Attempt = Redirect(url: string) | Failure(message: string)

  /**
   * How `pagar` reads the answer: only a non-empty `init_point` redirects;
   * a missing or empty one is a failure without navigation, and so is a
   * network error.
   */
  function Outcome(response: GatewayResponse): (a: Attempt)
    ensures a.Redirect? <==> response.Responded? && response.initPoint.Some? && response.initPoint.value != ""
    ensures a.Redirect? ==> a.url == response.initPoint.value
    ensures response.Responded? && !a.Redirect? ==> a == Failure("Mercado Pago no devolvió link de pago")
    ensures response.NetworkError? ==> a == Failure("Error conectando con Mercado Pago")
  {
    match response
    case NetworkError => Failure("Error conectando con Mercado Pago")
    case Responded(initPoint) =>
      if initPoint.None? || initPoint.value == "" then Failure("Mercado Pago no devolvió link de pago")
      else Redirect(initPoint.value)
  }
}
