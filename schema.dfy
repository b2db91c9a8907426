/** The records the backend stores and returns as JSON, and the shape of its HTTP responses. */
module Schema {
  import opened Wrappers
  import opened Table

  /** A row of `customers` apart from its key `customer_id`. */
  datatype CustomerData = CustomerData(firstName: string, lastName: string, phoneNumber: string)

  /** A row of `addresses` apart from its key `address_id`; `customerId` is the foreign reference. */
  datatype AddressData = AddressData(customerId: int, streetAddress: string, city: string, state: string, pinCode: string)

  type Customer = Row<CustomerData>
  type Address = Row<AddressData>

  /** One element of the JSON array that GET /customers returns: the customer's columns, the
      LEFT JOIN's COUNT and the three GROUP_CONCAT columns (SQL NULL when the customer has no address). */
  datatype CustomerSummary = CustomerSummary(
    customerId: nat, firstName: string, lastName: string, phoneNumber: string,
    addressCount: nat, cities: Option<string>, states: Option<string>, pinCodes: Option<string>)

  /** What GET /customers/<id> returns: the customer's columns plus its `addresses`. */
  datatype CustomerDetail = CustomerDetail(customer: Customer, addresses: seq<Address>)

  /** A JSON response body: `{"message": ...}`, `{"error": ...}` or the requested data. */
  datatype Body<T> = Message(message: string) | Error(error: string) | Data(value: T)

  datatype Response<T> = Response(status: nat, body: Body<T>)
}
