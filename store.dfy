/** The Flask routes of the backend over an in-memory store that replaces the MySQL
    database: one method per route, each returning the status code and JSON body the
    route returns and changing the tables as its SQL statement does. */
module CustomerStore {
  import opened Wrappers
  import opened Table
  import opened Schema
  import opened CustomerQuery

  /** The JSON body of POST /customers and PUT /customers/<id>; `None` is a key the body lacks.
      The page sends all seven keys; the backend reads only the first three. */
  datatype CustomerBody = CustomerBody(
    firstName: Option<string>, lastName: Option<string>, phoneNumber: Option<string>,
    streetAddress: Option<string>, city: Option<string>, state: Option<string>, pinCode: Option<string>)

  /** The JSON body of POST /addresses. */
  datatype AddressBody = AddressBody(
    customerId: Option<int>, streetAddress: Option<string>, city: Option<string>,
    state: Option<string>, pinCode: Option<string>)

  /** Python falsiness of a string value read with `data.get(key)`: absent (None) or empty. */
  predicate Falsy(v: Option<string>)
    ensures !Falsy(v) ==> v.Some? && |v.value| > 0
  {
    v.None? || v.value == ""
  }

  /** `not all([first_name, last_name, phone_number])`. */
  predicate MissingCustomerField(b: CustomerBody)
    ensures !MissingCustomerField(b) ==> b.firstName.Some? && b.lastName.Some? && b.phoneNumber.Some?
  {
    Falsy(b.firstName) || Falsy(b.lastName) || Falsy(b.phoneNumber)
  }

  /** `not all([customer_id, street_address, city, state, pin_code])`; the integer 0 is falsy too. */
  predicate MissingAddressField(b: AddressBody)
    ensures !MissingAddressField(b) ==>
      && b.customerId.Some? && b.customerId.value != 0
      && b.streetAddress.Some? && b.city.Some? && b.state.Some? && b.pinCode.Some?
  {
    b.customerId.None? || b.customerId.value == 0
    || Falsy(b.streetAddress) || Falsy(b.city) || Falsy(b.state) || Falsy(b.pinCode)
  }

  class Store {
    var customers: seq<Customer>
    var addresses: seq<Address>
    /** The AUTO_INCREMENT counters of the two tables. */
    var nextCustomerId: nat
    var nextAddressId: nat

    ghost predicate Valid()
      reads this
    {
      && 1 <= nextCustomerId && WellKeyed(customers, nextCustomerId)
      && 1 <= nextAddressId && WellKeyed(addresses, nextAddressId)
    }

    constructor ()
      ensures Valid()
      ensures customers == [] && addresses == [] && nextCustomerId == 1 && nextAddressId == 1
    {
      customers, addresses := [], [];
      nextCustomerId, nextAddressId := 1, 1;
    }

    /** POST /customers. Only the three customer columns are inserted; address keys in the body are ignored. */
    method CreateCustomer(body: CustomerBody) returns (resp: Response<()>)
      requires Valid()
      modifies this`customers, this`nextCustomerId
      ensures Valid()
      ensures MissingCustomerField(body) ==>
        resp == Response(400, Error("Missing required fields")) && unchanged(this)
      ensures !MissingCustomerField(body) ==>
        && resp == Response(201, Message("Customer created successfully"))
        && customers == old(customers)
             + [Row(old(nextCustomerId), CustomerData(body.firstName.value, body.lastName.value, body.phoneNumber.value))]
        && nextCustomerId == old(nextCustomerId) + 1
      ensures !MissingCustomerField(body)
              && (forall i :: 0 <= i < |addresses| ==> addresses[i].data.customerId != old(nextCustomerId))
              ==> AddressesOf(addresses, old(nextCustomerId)) == []
    {
      if MissingCustomerField(body) {
        return Response(400, Error("Missing required fields"));
      }
      var row := Row(nextCustomerId, CustomerData(body.firstName.value, body.lastName.value, body.phoneNumber.value));
      AppendWellKeyed(customers, nextCustomerId, row.data);
      customers := customers + [row];
      nextCustomerId := nextCustomerId + 1;
      resp := Response(201, Message("Customer created successfully"));
    }

    /** GET /customers?search=<search>. */
    method GetCustomers(search: string) returns (resp: Response<seq<CustomerSummary>>)
      ensures resp == Response(200, Data(ListCustomers(customers, addresses, search)))
    {
      resp := Response(200, Data(ListCustomers(customers, addresses, search)));
    }

    /** GET /customers/<id>: the customer's columns with exactly the addresses that refer to it. */
    method GetCustomer(id: nat) returns (resp: Response<CustomerDetail>)
      requires Valid()
      ensures !HasKey(customers, id) <==> resp == Response(404, Error("Customer not found"))
      ensures HasKey(customers, id) ==>
        && resp.status == 200 && resp.body.Data?
        && resp.body.value.customer in customers && resp.body.value.customer.id == id
        && resp.body.value.addresses == AddressesOf(addresses, id)
        && |resp.body.value.addresses| == Summarize(resp.body.value.customer, addresses).addressCount
    {
      var found := Find(customers, id);
      if found.None? {
        resp := Response(404, Error("Customer not found"));
      } else {
        resp := Response(200, Data(CustomerDetail(found.value, AddressesOf(addresses, id))));
      }
    }

    /** PUT /customers/<id>. No field is checked; a key that matches no row gives 404. */
    method UpdateCustomer(id: nat, firstName: string, lastName: string, phoneNumber: string)
      returns (resp: Response<()>)
      requires Valid()
      modifies this`customers
      ensures Valid()
      ensures !HasKey(old(customers), id) ==>
        resp == Response(404, Error("Customer not found")) && customers == old(customers)
      ensures HasKey(old(customers), id) ==>
        && resp == Response(200, Message("Customer updated successfully"))
        && customers == Replace(old(customers), id, CustomerData(firstName, lastName, phoneNumber))
    {
      if !HasKey(customers, id) {
        return Response(404, Error("Customer not found"));
      }
      ReplaceWellKeyed(customers, id, CustomerData(firstName, lastName, phoneNumber), nextCustomerId);
      customers := Replace(customers, id, CustomerData(firstName, lastName, phoneNumber));
      resp := Response(200, Message("Customer updated successfully"));
    }

    /** DELETE /customers/<id>: removes that one row; the addresses table is not touched. */
    method DeleteCustomer(id: nat) returns (resp: Response<()>)
      requires Valid()
      modifies this`customers
      ensures Valid()
      ensures !HasKey(old(customers), id) ==>
        resp == Response(404, Error("Customer not found")) && customers == old(customers)
      ensures HasKey(old(customers), id) ==>
        && resp == Response(200, Message("Customer deleted successfully"))
        && customers == Remove(old(customers), id)
        && |customers| == |old(customers)| - 1
    {
      if !HasKey(customers, id) {
        return Response(404, Error("Customer not found"));
      }
      RemoveWellKeyed(customers, id, nextCustomerId);
      RemoveOne(customers, id);
      customers := Remove(customers, id);
      resp := Response(200, Message("Customer deleted successfully"));
    }

    /** POST /addresses. The customer id is not checked against the customers table. */
    method AddAddress(body: AddressBody) returns (resp: Response<()>)
      requires Valid()
      modifies this`addresses, this`nextAddressId
      ensures Valid()
      ensures MissingAddressField(body) ==>
        resp == Response(400, Error("Missing required address fields")) && unchanged(this)
      ensures !MissingAddressField(body) ==>
        && resp == Response(201, Message("Address added successfully"))
        && addresses == old(addresses) + [Row(old(nextAddressId), AddressData(body.customerId.value,
             body.streetAddress.value, body.city.value, body.state.value, body.pinCode.value))]
        && nextAddressId == old(nextAddressId) + 1
    {
      if MissingAddressField(body) {
        return Response(400, Error("Missing required address fields"));
      }
      var data := AddressData(body.customerId.value, body.streetAddress.value, body.city.value,
                              body.state.value, body.pinCode.value);
      AppendWellKeyed(addresses, nextAddressId, data);
      addresses := addresses + [Row(nextAddressId, data)];
      nextAddressId := nextAddressId + 1;
      resp := Response(201, Message("Address added successfully"));
    }

    /** GET /addresses/<id>. */
    method GetAddress(id: nat) returns (resp: Response<Address>)
      ensures !HasKey(addresses, id) <==> resp == Response(404, Error("Address not found"))
      ensures HasKey(addresses, id) ==>
        resp.status == 200 && resp.body.Data? && resp.body.value in addresses && resp.body.value.id == id
    {
      var found := Find(addresses, id);
      if found.None? {
        resp := Response(404, Error("Address not found"));
      } else {
        resp := Response(200, Data(found.value));
      }
    }

    /** PUT /addresses/<id>: sets the four address columns; the row keeps its customer. */
    method UpdateAddress(id: nat, streetAddress: string, city: string, state: string, pinCode: string)
      returns (resp: Response<()>)
      requires Valid()
      modifies this`addresses
      ensures Valid()
      ensures !HasKey(old(addresses), id) ==>
        resp == Response(404, Error("Address not found")) && addresses == old(addresses)
      ensures HasKey(old(addresses), id) ==>
        && resp == Response(200, Message("Address updated successfully"))
        && addresses == Replace(old(addresses), id,
             AddressData(Find(old(addresses), id).value.data.customerId, streetAddress, city, state, pinCode))
    {
      var found := Find(addresses, id);
      if found.None? {
        return Response(404, Error("Address not found"));
      }
      var data := AddressData(found.value.data.customerId, streetAddress, city, state, pinCode);
      ReplaceWellKeyed(addresses, id, data, nextAddressId);
      addresses := Replace(addresses, id, data);
      resp := Response(200, Message("Address updated successfully"));
    }

    /** DELETE /addresses/<id>: removes that one address. */
    method DeleteAddress(id: nat) returns (resp: Response<()>)
      requires Valid()
      modifies this`addresses
      ensures Valid()
      ensures !HasKey(old(addresses), id) ==>
        resp == Response(404, Error("Address not found")) && addresses == old(addresses)
      ensures HasKey(old(addresses), id) ==>
        && resp == Response(200, Message("Address deleted successfully"))
        && addresses == Remove(old(addresses), id)
        && |addresses| == |old(addresses)| - 1
    {
      if !HasKey(addresses, id) {
        return Response(404, Error("Address not found"));
      }
      RemoveWellKeyed(addresses, id, nextAddressId);
      RemoveOne(addresses, id);
      addresses := Remove(addresses, id);
      resp := Response(200, Message("Address deleted successfully"));
    }
  }
}
