/** Value types shared by the storefront's root component (types.ts). */
module Types {

  /** A value that may be absent: the `T | null` of the source. */
  datatype Option<+T> = None | Some(value: T)

  /** The two roles a session can carry. */
  datatype Role = Customer | Admin

  /**
   * A product as the component holds it while editing. The floating-point
   * `price` is not part of this model; no handler reads any field of it.
   */
  datatype Product = Product(id: int, name: string, category: string, imageUrl: string, stock: int)
}
