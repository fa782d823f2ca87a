/** The one entity of the program and the values bound to statement placeholders. */
module Products {

  datatype Option<T> = None | Some(value: T)

  /** A product row as the program holds it before inserting: a name and a price. */
  datatype Product = Product(name: string, price: int)

  /**
   * One value bound to a `?` placeholder. The program passes these as an
   * untyped `[]interface{}`; here the two kinds that occur are told apart.
   */
  datatype Param = PText(text: string) | PInt(value: int)

  /** The values one product contributes to an insert, in column order: name, then price. */
  function RowParams(p: Product): seq<Param> {
    [PText(p.name), PInt(p.price)]
  }
}
