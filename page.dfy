/** The browser side: the state that the page's inputs, buttons and regions hold, and one
    method per event handler. A handler that talks to the backend takes the reply it gets as
    a parameter (`None` when fetch or response.json() throws) and returns the request it
    issues, the alert it shows and the refresh it starts; the refresh is then run by
    `ShowCustomers` or `ViewCustomerDetails` with the reply to that fetch. */
module CustomerPage {
  import opened Wrappers
  import opened Schema
  import opened JsText

  const BackendUrl := "http://127.0.0.1:5000"

  /** What a DOM property holds after being assigned a JSON key the body lacks. */
  const Undefined := "undefined"

  const AddCustomerLabel := "Add Customer"
  const UpdateCustomerLabel := "Update Customer"
  const AddAddressLabel := "Add Address"
  const UpdateAddressLabel := "Update Address"
  const MandatoryAlert := "All fields are mandatory. Please fill in all customer and address details."
  const MultipleBadge := "Multiple Addresses"
  const SingleBadge := "Only One Address"

  datatype Verb = GET | POST | PUT | DELETE

  /** The JSON bodies the page sends: customerData and addressData. */
  datatype Payload =
    | NoPayload
    | CustomerPayload(firstName: string, lastName: string, phoneNumber: string,
                      streetAddress: string, city: string, state: string, pinCode: string)
    | AddressPayload(customerId: string, streetAddress: string, city: string, state: string, pinCode: string)

  datatype Request = Request(verb: Verb, url: string, payload: Payload)

  /** The fetch a handler starts after its request completes: fetchCustomers(query) or viewCustomerDetails(id). */
  datatype Refresh = NoRefresh | RefreshList(query: string) | RefreshDetail(customerId: string)

  /** One "Additional Address" group appended to the customer form. */
  datatype AddressDraft = AddressDraft(street: string, city: string, state: string, pincode: string)

  /** A list region: the "No ... found." paragraph, or the list items appended to it. */
  datatype Listing<T> = Placeholder | Items(items: seq<T>)

  /** A customer row: the id its View/Edit/Delete buttons pass, and its badge text and class. */
  datatype CustomerItem = CustomerItem(customerId: nat, badge: string, badgeClass: string)

  /** An address row: the id its Edit/Delete buttons pass. */
  datatype AddressItem = AddressItem(addressId: nat)

  /** An element is shown unless its style.display is 'none'. */
  predicate Visible(display: string)
  {
    display != "none"
  }

  /** `response.ok`. */
  predicate IsOk<T>(resp: Response<T>)
  {
    200 <= resp.status < 300
  }

  /** The alert after a mutation: result.message on success, "Error: " + result.error otherwise. */
  function AlertFor(resp: Response<()>): (text: string)
    ensures IsOk(resp) && resp.body.Message? ==> text == resp.body.message
    ensures !IsOk(resp) && resp.body.Error? ==> text == "Error: " + resp.body.error
  {
    if IsOk(resp) then (if resp.body.Message? then resp.body.message else Undefined)
    else "Error: " + (if resp.body.Error? then resp.body.error else Undefined)
  }

  /** The two labels of each button differ, and "undefined" is not the empty id. */
  lemma LabelsDistinct()
    ensures AddCustomerLabel != UpdateCustomerLabel && AddAddressLabel != UpdateAddressLabel
    ensures Undefined != ""
  {
    assert AddCustomerLabel[0] != UpdateCustomerLabel[0];
    assert AddAddressLabel[0] != UpdateAddressLabel[0];
  }

  /** The customer list shows `customers` as renderCustomers leaves it. */
  ghost predicate ShowsCustomers(list: Listing<CustomerItem>, customers: seq<CustomerSummary>)
  {
    && (customers == [] <==> list.Placeholder?)
    && (list.Items? ==>
          && |list.items| == |customers|
          && forall i :: 0 <= i < |customers| ==>
               && list.items[i].customerId == customers[i].customerId
               && (list.items[i].badge == MultipleBadge <==> customers[i].addressCount > 1)
               && (list.items[i].badge == SingleBadge <==> customers[i].addressCount <= 1)
               && list.items[i].badgeClass == (if customers[i].addressCount > 1 then "multiple-address" else "single-address"))
  }

  /** The address list shows `addresses` as renderAddresses leaves it. */
  ghost predicate ShowsAddresses(list: Listing<AddressItem>, addresses: seq<Address>)
  {
    && (addresses == [] <==> list.Placeholder?)
    && (list.Items? ==>
          && |list.items| == |addresses|
          && forall i :: 0 <= i < |addresses| ==> list.items[i].addressId == addresses[i].id)
  }

  /** The values of the customer form's inputs: the seven visible fields, the hidden
      customer-id input ('' in create mode, the bound id in edit mode), the submit button's
      text and the appended "Additional Address" groups. */
  datatype CustomerForm = CustomerForm(
    firstName: string, lastName: string, phone: string,
    street: string, city: string, state: string, pincode: string,
    customerId: string, submitLabel: string, extraAddresses: seq<AddressDraft>)

  /** The values of the detail view's address form: four visible fields, the hidden
      address-id input and the submit button's text. */
  datatype AddressForm = AddressForm(
    street: string, city: string, state: string, pincode: string,
    addressId: string, submitLabel: string)

  /** The client-side validation: all seven fields are non-empty after trim(). */
  predicate Complete(f: CustomerForm)
    ensures Complete(f) ==>
      && f.firstName != "" && f.lastName != "" && f.phone != ""
      && f.street != "" && f.city != "" && f.state != "" && f.pincode != ""
  {
    && Trim(f.firstName) != "" && Trim(f.lastName) != "" && Trim(f.phone) != ""
    && Trim(f.street) != "" && Trim(f.city) != "" && Trim(f.state) != "" && Trim(f.pincode) != ""
  }

  /** The body the customer form sends once validation passes: the seven trimmed values. */
  function FormPayload(f: CustomerForm): (p: Payload)
    ensures p.CustomerPayload?
  {
    CustomerPayload(Trim(f.firstName), Trim(f.lastName), Trim(f.phone),
                    Trim(f.street), Trim(f.city), Trim(f.state), Trim(f.pincode))
  }

  /** The appended address groups play no part in a submit: whatever they hold, the
      validation and the body sent are those of the primary fields alone. */
  lemma ExtraAddressesIgnored(f: CustomerForm, xs: seq<AddressDraft>)
    ensures Complete(f.(extraAddresses := xs)) == Complete(f)
    ensures FormPayload(f.(extraAddresses := xs)) == FormPayload(f)
  {
  }

  /** The submit button tells the mode, as the hidden id does. */
  predicate CustomerModeAgrees(f: CustomerForm)
  {
    && (f.submitLabel == AddCustomerLabel || f.submitLabel == UpdateCustomerLabel)
    && (f.customerId == "" <==> f.submitLabel == AddCustomerLabel)
  }

  predicate AddressModeAgrees(a: AddressForm)
  {
    && (a.submitLabel == AddAddressLabel || a.submitLabel == UpdateAddressLabel)
    && (a.addressId == "" <==> a.submitLabel == AddAddressLabel)
  }

  /** The customer form in create mode with its seven fields empty. */
  predicate Cleared(f: CustomerForm)
  {
    && f.firstName == "" && f.lastName == "" && f.phone == ""
    && f.street == "" && f.city == "" && f.state == "" && f.pincode == ""
    && f.customerId == "" && f.submitLabel == AddCustomerLabel
  }

  /** Every appended address group is empty. */
  predicate DraftsBlank(drafts: seq<AddressDraft>)
  {
    forall i :: 0 <= i < |drafts| ==> drafts[i] == AddressDraft("", "", "", "")
  }

  /** The customer form as customerForm.reset() followed by clearing the hidden id and
      restoring the create label leaves it: the appended groups stay, emptied. */
  function ResetForm(f: CustomerForm): (r: CustomerForm)
    ensures Cleared(r) && CustomerModeAgrees(r)
    ensures |r.extraAddresses| == |f.extraAddresses| && DraftsBlank(r.extraAddresses)
  {
    LabelsDistinct();
    CustomerForm("", "", "", "", "", "", "", "", AddCustomerLabel,
                 seq(|f.extraAddresses|, _ => AddressDraft("", "", "", "")))
  }

  /** The reset leaves nothing a second reset would change. */
  lemma ResetFormIdempotent(f: CustomerForm)
    ensures ResetForm(ResetForm(f)) == ResetForm(f)
  {
  }

  /** A form left by a reset, or by the clear-form button, fails validation until it is
      filled in again: an immediate second submit only alerts. */
  lemma ClearedFormIncomplete(f: CustomerForm)
    requires Cleared(f)
    ensures !Complete(f)
  {
    assert Trim(f.firstName) == "";
  }

  class Page {
    var customerForm: CustomerForm
    var searchText: string
    var customerList: Listing<CustomerItem>
    var mainDisplay: string
    var detailDisplay: string
    var addressForm: AddressForm
    /** The hidden input naming the customer whose detail view is open; addressForm.reset()
        keeps its value. */
    var addressCustomerId: string
    var addressList: Listing<AddressItem>

    /** Exactly one view is visible, the detail view has a customer, and each form's label
        tells its mode as its bound id does. */
    ghost predicate Valid()
      reads this
    {
      && Visible(mainDisplay) != Visible(detailDisplay)
      && (Visible(detailDisplay) ==> addressCustomerId != "")
      && CustomerModeAgrees(customerForm)
      && AddressModeAgrees(addressForm)
    }

    /** The page as loaded: both forms empty and in create mode, the list view shown. */
    constructor ()
      ensures Valid() && Cleared(customerForm) && customerForm.extraAddresses == []
      ensures Visible(mainDisplay) && !Visible(detailDisplay)
      ensures addressForm.addressId == "" && addressCustomerId == "" && searchText == ""
    {
      LabelsDistinct();
      customerForm := CustomerForm("", "", "", "", "", "", "", "", AddCustomerLabel, []);
      searchText, customerList := "", Items([]);
      mainDisplay, detailDisplay := "", "none";
      addressForm := AddressForm("", "", "", "", "", AddAddressLabel);
      addressCustomerId, addressList := "", Items([]);
    }

    // ---- the customer list ----

    /** A keyup in the search field fetches the list filtered by the field's text. */
    method SearchKeyUp() returns (refresh: Refresh)
      ensures refresh == RefreshList(searchText)
    {
      refresh := RefreshList(searchText);
    }

    /** The clear-search button empties the field and fetches the whole list. */
    method ClearSearch() returns (refresh: Refresh)
      modifies this`searchText
      ensures searchText == "" && refresh == RefreshList("")
    {
      searchText := "";
      refresh := RefreshList("");
    }

    /** renderCustomers: the list is cleared, then gets the placeholder or one item per customer. */
    method RenderCustomers(customers: seq<CustomerSummary>)
      modifies this`customerList
      ensures ShowsCustomers(customerList, customers)
    {
      customerList := Items([]);
      if |customers| == 0 {
        customerList := Placeholder;
        return;
      }
      var i := 0;
      while i < |customers|
        invariant 0 <= i <= |customers|
        invariant customerList.Items? && |customerList.items| == i
        invariant forall k :: 0 <= k < i ==>
          && customerList.items[k].customerId == customers[k].customerId
          && customerList.items[k].badge == (if customers[k].addressCount > 1 then MultipleBadge else SingleBadge)
          && customerList.items[k].badgeClass == (if customers[k].addressCount > 1 then "multiple-address" else "single-address")
      {
        var many := customers[i].addressCount > 1;
        var item := CustomerItem(customers[i].customerId,
                                 if many then MultipleBadge else SingleBadge,
                                 if many then "multiple-address" else "single-address");
        customerList := Items(customerList.items + [item]);
        i := i + 1;
      }
    }

    /** The end of fetchCustomers, given the reply to GET /customers. A body that is not an
        array clears the list and then fails inside renderCustomers, leaving it empty. */
    method ShowCustomers(reply: Option<Response<seq<CustomerSummary>>>)
      modifies this`customerList
      ensures reply.None? ==> customerList == old(customerList)
      ensures reply.Some? && reply.value.body.Data? ==> ShowsCustomers(customerList, reply.value.body.value)
      ensures reply.Some? && !reply.value.body.Data? ==> customerList == Items([])
    {
      if reply.None? {
        return;
      }
      if reply.value.body.Data? {
        RenderCustomers(reply.value.body.value);
      } else {
        customerList := Items([]);
      }
    }

    // ---- the customer form ----

    /** The clear-form button: reset, create mode, no additional address groups. */
    method ClearForm()
      requires Valid()
      modifies this`customerForm
      ensures Valid() && Cleared(customerForm) && customerForm.extraAddresses == []
    {
      customerForm := ResetForm(customerForm).(extraAddresses := []);
    }

    /** The add-address-fields button appends one empty address group. */
    method AddAddressFields()
      modifies this`customerForm
      ensures customerForm == old(customerForm).(extraAddresses :=
        old(customerForm.extraAddresses) + [AddressDraft("", "", "", "")])
    {
      customerForm := customerForm.(extraAddresses := customerForm.extraAddresses + [AddressDraft("", "", "", "")]);
    }

    /** The customer form's submit handler. */
    method SubmitCustomer(reply: Option<Response<()>>) returns (request: Option<Request>, alert: Option<string>, refresh: Refresh)
      requires Valid()
      modifies this`customerForm
      ensures Valid()
      // validation fails: an alert and nothing else
      ensures !Complete(old(customerForm)) ==>
        request.None? && alert == Some(MandatoryAlert) && refresh == NoRefresh && customerForm == old(customerForm)
      // validation passes: PUT to the bound customer or POST, with the seven trimmed values only
      ensures Complete(old(customerForm)) ==>
        var bound := old(customerForm.customerId);
        request == Some(Request(if bound != "" then PUT else POST,
                                if bound != "" then BackendUrl + "/customers/" + bound else BackendUrl + "/customers",
                                FormPayload(old(customerForm))))
      // no reply: the handler stops at the failed fetch
      ensures Complete(old(customerForm)) && reply.None? ==>
        alert.None? && refresh == NoRefresh && customerForm == old(customerForm)
      // any reply, ok or not: its message, a reset form in create mode, the unfiltered list
      ensures Complete(old(customerForm)) && reply.Some? ==>
        && alert == Some(AlertFor(reply.value)) && refresh == RefreshList("")
        && Cleared(customerForm) && DraftsBlank(customerForm.extraAddresses)
        && |customerForm.extraAddresses| == |old(customerForm.extraAddresses)|
    {
      if !Complete(customerForm) {
        return None, Some(MandatoryAlert), NoRefresh;
      }
      var bound := customerForm.customerId;
      var verb := if bound != "" then PUT else POST;
      var url := if bound != "" then BackendUrl + "/customers/" + bound else BackendUrl + "/customers";
      request := Some(Request(verb, url, FormPayload(customerForm)));
      if reply.None? {
        return request, None, NoRefresh;
      }
      var text;
      text, refresh := ConcludeCustomerSubmit(reply.value);
      alert := Some(text);
    }

    /** The end of the customer form's submit handler once the reply has arrived, whatever its
        status: the alert, the form reset to create mode, and the unfiltered list fetched. */
    method ConcludeCustomerSubmit(resp: Response<()>) returns (alert: string, refresh: Refresh)
      requires Valid()
      modifies this`customerForm
      ensures Valid()
      ensures alert == AlertFor(resp) && refresh == RefreshList("")
      ensures Cleared(customerForm) && DraftsBlank(customerForm.extraAddresses)
      ensures |customerForm.extraAddresses| == |old(customerForm.extraAddresses)|
    {
      alert := AlertFor(resp);
      customerForm := ResetForm(customerForm);
      refresh := RefreshList("");
    }

    /** editCustomer(id), given the reply to GET /customers/<id>. */
    method EditCustomer(id: string, reply: Option<Response<CustomerDetail>>) returns (request: Request)
      requires Valid()
      modifies this`customerForm
      ensures Valid()
      ensures request == Request(GET, BackendUrl + "/customers/" + id, NoPayload)
      ensures reply.None? ==> customerForm == old(customerForm)
      ensures reply.Some? ==>
        var f := customerForm;
        && f.submitLabel == UpdateCustomerLabel && f.customerId != ""
        && f.street == "" && f.city == "" && f.state == "" && f.pincode == "" && f.extraAddresses == []
      ensures reply.Some? && reply.value.body.Data? ==>
        var c := reply.value.body.value.customer;
        && customerForm.firstName == c.data.firstName && customerForm.lastName == c.data.lastName
        && customerForm.phone == c.data.phoneNumber && customerForm.customerId == NumberToString(c.id)
      ensures reply.Some? && !reply.value.body.Data? ==>
        && customerForm.firstName == Undefined && customerForm.lastName == Undefined
        && customerForm.phone == Undefined && customerForm.customerId == Undefined
    {
      LabelsDistinct();
      request := Request(GET, BackendUrl + "/customers/" + id, NoPayload);
      if reply.None? {
        return;
      }
      if reply.value.body.Data? {
        var c := reply.value.body.value.customer;
        customerForm := CustomerForm(c.data.firstName, c.data.lastName, c.data.phoneNumber, "", "", "", "",
                                     NumberToString(c.id), UpdateCustomerLabel, []);
      } else {
        customerForm := CustomerForm(Undefined, Undefined, Undefined, "", "", "", "",
                                     Undefined, UpdateCustomerLabel, []);
      }
    }

    /** deleteCustomer(id): asks first; on a reply, its message and the unfiltered list. */
    method DeleteCustomer(id: string, confirmed: bool, reply: Option<Response<()>>)
      returns (request: Option<Request>, alert: Option<string>, refresh: Refresh)
      ensures request.Some? <==> confirmed
      ensures confirmed ==> request == Some(Request(DELETE, BackendUrl + "/customers/" + id, NoPayload))
      ensures alert.Some? <==> confirmed && reply.Some?
      ensures alert.Some? ==> alert == Some(AlertFor(reply.value))
      ensures refresh == if confirmed && reply.Some? then RefreshList("") else NoRefresh
    {
      request, alert, refresh := None, None, NoRefresh;
      if confirmed {
        request := Some(Request(DELETE, BackendUrl + "/customers/" + id, NoPayload));
        if reply.Some? {
          alert := Some(AlertFor(reply.value));
          refresh := RefreshList("");
        }
      }
    }

    // ---- the detail view ----

    /** renderAddresses: the list is cleared, then gets the placeholder or one item per address. */
    method RenderAddresses(addresses: seq<Address>)
      modifies this`addressList
      ensures ShowsAddresses(addressList, addresses)
    {
      addressList := Items([]);
      if |addresses| == 0 {
        addressList := Placeholder;
        return;
      }
      var i := 0;
      while i < |addresses|
        invariant 0 <= i <= |addresses|
        invariant addressList.Items? && |addressList.items| == i
        invariant forall k :: 0 <= k < i ==> addressList.items[k].addressId == addresses[k].id
      {
        addressList := Items(addressList.items + [AddressItem(addresses[i].id)]);
        i := i + 1;
      }
    }

    /** viewCustomerDetails(id), given the reply to GET /customers/<id>. A body without customer
        data binds "undefined", clears the address list, fails before switching views, and the
        failure is caught. */
    method ViewCustomerDetails(id: string, reply: Option<Response<CustomerDetail>>) returns (request: Request)
      requires Valid()
      modifies this`addressCustomerId, this`addressList, this`mainDisplay, this`detailDisplay
      ensures Valid()
      ensures request == Request(GET, BackendUrl + "/customers/" + id, NoPayload)
      ensures reply.None? ==>
        && addressCustomerId == old(addressCustomerId) && addressList == old(addressList)
        && mainDisplay == old(mainDisplay) && detailDisplay == old(detailDisplay)
      ensures reply.Some? && reply.value.body.Data? ==>
        && addressCustomerId == NumberToString(reply.value.body.value.customer.id)
        && ShowsAddresses(addressList, reply.value.body.value.addresses)
        && !Visible(mainDisplay) && Visible(detailDisplay)
      ensures reply.Some? && !reply.value.body.Data? ==>
        && addressCustomerId == Undefined && addressList == Items([])
        && mainDisplay == old(mainDisplay) && detailDisplay == old(detailDisplay)
    {
      LabelsDistinct();
      request := Request(GET, BackendUrl + "/customers/" + id, NoPayload);
      if reply.None? {
        return;
      }
      if reply.value.body.Data? {
        addressCustomerId := NumberToString(reply.value.body.value.customer.id);
        RenderAddresses(reply.value.body.value.addresses);
        mainDisplay, detailDisplay := "none", "block";
      } else {
        addressCustomerId, addressList := Undefined, Items([]);
      }
    }

    /** The address form's submit handler: no client-side validation, and afterwards the
        detail view of the bound customer is fetched again. */
    method SubmitAddress(reply: Option<Response<()>>) returns (request: Request, alert: Option<string>, refresh: Refresh)
      requires Valid()
      modifies this`addressForm
      ensures Valid()
      ensures
        var a := old(addressForm);
        request == Request(
          if a.addressId != "" then PUT else POST,
          if a.addressId != "" then BackendUrl + "/addresses/" + a.addressId else BackendUrl + "/addresses",
          AddressPayload(addressCustomerId, a.street, a.city, a.state, a.pincode))
      ensures reply.None? ==> alert.None? && refresh == NoRefresh && addressForm == old(addressForm)
      ensures reply.Some? ==>
        && alert == Some(AlertFor(reply.value)) && refresh == RefreshDetail(addressCustomerId)
        && addressForm == AddressForm("", "", "", "", "", AddAddressLabel)
    {
      LabelsDistinct();
      var a := addressForm;
      var verb := if a.addressId != "" then PUT else POST;
      var url := if a.addressId != "" then BackendUrl + "/addresses/" + a.addressId else BackendUrl + "/addresses";
      request := Request(verb, url, AddressPayload(addressCustomerId, a.street, a.city, a.state, a.pincode));
      if reply.None? {
        return request, None, NoRefresh;
      }
      alert := Some(AlertFor(reply.value));
      // addressForm.reset() empties the visible fields; the code then clears the hidden id
      addressForm := AddressForm("", "", "", "", "", AddAddressLabel);
      refresh := RefreshDetail(addressCustomerId);
    }

    /** editAddress(id), given the reply to GET /addresses/<id>. */
    method EditAddress(id: string, reply: Option<Response<Address>>) returns (request: Request)
      requires Valid()
      modifies this`addressForm
      ensures Valid()
      ensures request == Request(GET, BackendUrl + "/addresses/" + id, NoPayload)
      ensures reply.None? ==> addressForm == old(addressForm)
      ensures reply.Some? ==> addressForm.submitLabel == UpdateAddressLabel && addressForm.addressId != ""
      ensures reply.Some? && reply.value.body.Data? ==>
        var a := reply.value.body.value;
        addressForm == AddressForm(a.data.streetAddress, a.data.city, a.data.state, a.data.pinCode,
                                   NumberToString(a.id), UpdateAddressLabel)
      ensures reply.Some? && !reply.value.body.Data? ==>
        addressForm == AddressForm(Undefined, Undefined, Undefined, Undefined, Undefined, UpdateAddressLabel)
    {
      LabelsDistinct();
      request := Request(GET, BackendUrl + "/addresses/" + id, NoPayload);
      if reply.None? {
        return;
      }
      if reply.value.body.Data? {
        var a := reply.value.body.value;
        addressForm := AddressForm(a.data.streetAddress, a.data.city, a.data.state, a.data.pinCode,
                                   NumberToString(a.id), UpdateAddressLabel);
      } else {
        addressForm := AddressForm(Undefined, Undefined, Undefined, Undefined, Undefined, UpdateAddressLabel);
      }
    }

    /** deleteAddress(id): asks first; on a reply, its message and the bound customer's detail view again. */
    method DeleteAddress(id: string, confirmed: bool, reply: Option<Response<()>>)
      returns (request: Option<Request>, alert: Option<string>, refresh: Refresh)
      ensures request.Some? <==> confirmed
      ensures confirmed ==> request == Some(Request(DELETE, BackendUrl + "/addresses/" + id, NoPayload))
      ensures alert.Some? <==> confirmed && reply.Some?
      ensures alert.Some? ==> alert == Some(AlertFor(reply.value))
      ensures refresh == if confirmed && reply.Some? then RefreshDetail(addressCustomerId) else NoRefresh
    {
      request, alert, refresh := None, None, NoRefresh;
      if confirmed {
        request := Some(Request(DELETE, BackendUrl + "/addresses/" + id, NoPayload));
        if reply.Some? {
          alert := Some(AlertFor(reply.value));
          refresh := RefreshDetail(addressCustomerId);
        }
      }
    }

    /** The back-to-list button: the list view again, fetched unfiltered; the search field keeps its text. */
    method BackToList() returns (refresh: Refresh)
      requires Valid()
      modifies this`mainDisplay, this`detailDisplay
      ensures Valid()
      ensures Visible(mainDisplay) && !Visible(detailDisplay)
      ensures refresh == RefreshList("")
    {
      mainDisplay, detailDisplay := "block", "none";
      refresh := RefreshList("");
    }
  }
}
