/**
 * The value types shared by every layer: a partner's address, the partner
 * record itself and the sentinel error of the store.
 */
module Entities {

  /** Geographic coordinates in decimal degrees. */
  datatype Address = Address(Latitude: real, Longitude: real)

  /** A craftsman who can be matched to a customer. */
  datatype Partner = Partner(
    ID: string,
    Name: string,
    ExperiencedMaterial: seq<string>,
    Address: Address,
    OperatingRadius: int,
    Rating: int)

  /**
   * The errors a partner lookup can report: the store's sentinel
   * `ErrRecordNotExist`, or any other error a different store might return.
   */
  datatype Error = ErrRecordNotExist | OtherError(message: string)

  /** Go's zero value of `Partner`, returned beside an error. */
  const ZeroPartner := Partner("", "", [], Address(0.0, 0.0), 0, 0)
}
