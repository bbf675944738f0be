/** The product records of the bundled catalog (`ItemData` in src/App.tsx, without its optional quantity). */
module Catalog {
  /** One catalog product. Prices are integers in the smallest currency unit (cents). */
  datatype Product = Product(
    id: string,
    productName: string,
    description: string,
    unitPrice: int,
    category: string,
    imageUrl: string)
}
