/** The dictionaries the two network lookups hand to the scorer and the view. Every key
    is optional, because the code reads them with `.get`. */
module Lookups {
  import opened Wrappers

  /** What `check_ssl` returns. */
  datatype SslData = SslData(
    grade: Option<string>,
    valid: Option<bool>,
    validFrom: Option<string>,
    validTo: Option<string>,
    issuer: Option<string>,
    daysUntilExpiry: Option<int>,
    protocol: Option<string>,
    error: Option<string>)

  /** What the domain-age lookup returns; its `age` is a whole number of years. */
  datatype DomainData = DomainData(
    age: Option<int>,
    created: Option<string>,
    registrar: Option<string>,
    expiration: Option<string>,
    error: Option<string>)
}
