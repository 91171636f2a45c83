/**
 * The checkout page as a state machine over its form fields, its `loading`
 * flag, its last notice and the address it navigates to.
 *
 * `pagar` is asynchronous: `Pay` is the part that runs when the button is
 * pressed (the checks, then `loading` and the request), `Complete` the part
 * that runs when the gateway answers (the redirect or the notice, and the
 * `finally` that clears `loading`). The phases are Editing (`!loading` and no
 * redirect), Submitting (`loading`) and Redirecting (`location` set).
 */
module CheckoutPage {
  import opened Wrappers
  import opened Cart
  import opened Checkout

  class Page {
    var nombre: string
    var apellido: string
    var email: string
    /** Set while a request is out; the button is disabled meanwhile. */
    var loading: bool
    /** The last notice shown ("" when none; its timed dismissal is not modelled). */
    var notification: string
    /** The address the page navigated to, once the gateway gave a link. */
    var location: Option<string>
    /** The cart handed over by the storefront. */
    const cart: seq<CartItem>

    /** The stored names always pass the input filter. */
    ghost predicate Valid()
      reads this
    {
      NameAccepted(nombre) && NameAccepted(apellido)
    }

    /**
     * `disabled={!camposValidos || loading}`, negated: the button is enabled
     * exactly when no request is out and every check of `pagar` would pass.
     */
    predicate SubmitEnabled()
      reads this
      ensures SubmitEnabled() <==> Check(nombre, apellido, email, cart) == Ready && !loading
    {
      FieldsValid(nombre, apellido, email, cart) && !loading
    }

    /** The page as it opens: empty fields, not loading, no notice, no redirect. */
    constructor (handed: seq<CartItem>)
      ensures Valid()
      ensures cart == handed && nombre == "" && apellido == "" && email == ""
      ensures !loading && notification == "" && location == None
    {
      cart := handed;
      nombre, apellido, email := "", "", "";
      loading := false;
      notification := "";
      location := None;
    }

    /** The name input's `onChange`: an edit with a disallowed character is dropped. */
    method EditNombre(value: string)
      requires Valid()
      modifies this
      ensures Valid()
      ensures nombre == if NameAccepted(value) then value else old(nombre)
      ensures apellido == old(apellido) && email == old(email) && loading == old(loading)
      ensures notification == old(notification) && location == old(location)
    {
      if NameAccepted(value) {
        nombre := value;
      }
    }

    /** The surname input's `onChange`, with the same filter. */
    method EditApellido(value: string)
      requires Valid()
      modifies this
      ensures Valid()
      ensures apellido == if NameAccepted(value) then value else old(apellido)
      ensures nombre == old(nombre) && email == old(email) && loading == old(loading)
      ensures notification == old(notification) && location == old(location)
    {
      if NameAccepted(value) {
        apellido := value;
      }
    }

    /** The email input's `onChange`: every edit is stored. */
    method EditEmail(value: string)
      requires Valid()
      modifies this
      ensures Valid()
      ensures email == value
      ensures nombre == old(nombre) && apellido == old(apellido) && loading == old(loading)
      ensures notification == old(notification) && location == old(location)
    {
      email := value;
    }

    /**
     * `pagar` up to the gateway call: the first failing check shows its
     * notice and nothing is sent; when all pass, `loading` is set and the
     * request for the current form and cart is returned.
     */
    method Pay() returns (request: Option<Order>)
      requires Valid()
      modifies this
      ensures Valid()
      ensures nombre == old(nombre) && apellido == old(apellido) && email == old(email)
      ensures location == old(location)
      ensures request.Some? <==> Check(nombre, apellido, email, cart) == Ready
      ensures request.None? ==>
        notification == VerdictMessage(Check(nombre, apellido, email, cart)) && loading == old(loading)
      ensures request.Some? ==>
        request.value == BuildOrder(nombre, apellido, email, cart) && loading && notification == old(notification)
    {
      var verdict := Check(nombre, apellido, email, cart);
      if verdict == Ready {
        loading := true;
        request := Some(BuildOrder(nombre, apellido, email, cart));
      } else {
        notification := VerdictMessage(verdict);
        request := None;
      }
    }

    /**
     * `pagar` after the gateway answered: a link navigates there, anything
     * else shows its notice without navigating; `loading` is cleared either
     * way, and the form and the cart stay as they were.
     */
    method Complete(response: GatewayResponse)
      requires Valid() && loading
      modifies this
      ensures Valid()
      ensures !loading
      ensures nombre == old(nombre) && apellido == old(apellido) && email == old(email)
      ensures Outcome(response).Redirect? ==>
        location == Some(Outcome(response).url) && notification == old(notification)
      ensures Outcome(response).Failure? ==>
        location == old(location) && notification == Outcome(response).message
    {
      match Outcome(response) {
        case Redirect(url) =>
          location := Some(url);
        case Failure(message) =>
          notification := message;
      }
      loading := false;
    }

    /**
     * A press of the pay button: ignored while it is disabled; when it is
     * enabled every check passes, so the request is always sent.
     */
    method Press() returns (request: Option<Order>)
      requires Valid()
      modifies this
      ensures Valid()
      ensures !old(SubmitEnabled()) ==> request == None && unchanged(this)
      ensures old(SubmitEnabled()) ==>
        request == Some(BuildOrder(nombre, apellido, email, cart)) && loading
        && nombre == old(nombre) && apellido == old(apellido) && email == old(email)
        && notification == old(notification) && location == old(location)
    {
      if !SubmitEnabled() {
        return None;
      }
      request := Pay();
    }
  }
}
