/** What the backend reads from the bodies the page sends: JSON.stringify on the page and
    request.get_json() in the route give back every key with its string value. */
module Exchange {
  import opened Wrappers
  import opened JsText
  import opened CustomerPage
  import opened CustomerStore

  /** The body POST /customers and PUT /customers/<id> receive from the customer form. */
  function CustomerBodyOf(p: Payload): (b: CustomerBody)
    requires p.CustomerPayload?
    ensures b.firstName.Some? && b.lastName.Some? && b.phoneNumber.Some?
    ensures b.streetAddress.Some? && b.city.Some? && b.state.Some? && b.pinCode.Some?
    ensures b.firstName.value == p.firstName && b.lastName.value == p.lastName
            && b.phoneNumber.value == p.phoneNumber
  {
    CustomerBody(Some(p.firstName), Some(p.lastName), Some(p.phoneNumber),
                 Some(p.streetAddress), Some(p.city), Some(p.state), Some(p.pinCode))
  }

  /** A submit that passes the page's validation is never refused by the backend's own check:
      the page's check is the stricter one. */
  lemma ValidatedSubmitAccepted(f: CustomerForm)
    requires Complete(f)
    ensures !MissingCustomerField(CustomerBodyOf(FormPayload(f)))
  {
  }

  /** The converse fails: a form whose street (or city, state, pin code) is empty is stopped
      by the page, while the backend's check, which covers the three customer fields only,
      would have let its body through. */
  lemma ValidationStricterThanBackend(f: CustomerForm)
    requires Trim(f.firstName) != "" && Trim(f.lastName) != "" && Trim(f.phone) != ""
    requires f.street == ""
    ensures !Complete(f)
    ensures !MissingCustomerField(CustomerBodyOf(FormPayload(f)))
  {
  }
}
