/** The records the shopping planner passes around (src/types/index.tsx), plus the
    Option and Result wrappers used for the source's `null`/`undefined` values and thrown errors. */
module Types {

  datatype Option<+T> = None | Some(value: T)

  datatype Result<+T, +E> = Success(value: T) | Failure(error: E)

  /** A listing's quantity: the marketplace never posts an empty lot, and the selector's
      reconstruction loop would not terminate on one. */
  type Positive = n: nat | 0 < n witness 1

  /** One sell order: a whole-gil price per unit, a lot size and the world it is posted on. */
  datatype Listing = Listing(pricePerUnit: nat, quantity: Positive, worldID: int)

  /** One wish-list entry. The requested quantity comes from text and is not checked to be positive. */
  datatype Item = Item(id: int, quantity: int, name: Option<string>)

  datatype PurchaseStatus = Complete | Incomplete | Partial

  /** What to buy of one item on one world: the merged quantity and the price range paid. */
  datatype Purchase = Purchase(
    itemID: int,
    name: Option<string>,
    worldID: int,
    quantityToBuy: nat,
    priceMin: nat,
    priceMax: nat,
    active: bool,
    status: Option<PurchaseStatus>)

  /** A data centre: its name, its region and the ids of its member worlds. */
  datatype DC = DC(name: string, region: string, worlds: seq<int>)

  /** A world (game server); `id` is the numeric value of the textual id the topology source gives. */
  datatype World = World(id: int, name: string)

  /** Decimal rendering of a natural number, as `Number.prototype.toString` writes it. */
  function NatToString(n: nat): string
    decreases n
  {
    var d := "0123456789"[n % 10];
    if n < 10 then [d] else NatToString(n / 10) + [d]
  }

  /** Decimal rendering of an integer, with a leading minus sign when negative. */
  function IntToString(i: int): string
  {
    if i < 0 then "-" + NatToString(-i) else NatToString(i)
  }
}
