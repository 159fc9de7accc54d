/** The product detail endpoint `GET /api/products/:id` over the `products` table:
    the row with the requested id, or a 404 answer when there is none. */
module Catalog {

  /** A `products` row; `price` in integer cents. */
  datatype Product = Product(id: int, name: string, price: int, description: string, image: string)

  datatype Lookup = Found(product: Product) | Missing

  const NotFoundMessage: string := "\U{274C} Product not found"

  /** `SELECT * FROM products WHERE id = ?` as read by `db.get`: the first matching row. */
  function FindProduct(rows: seq<Product>, id: int): (r: Lookup)
    ensures r.Found? ==> r.product in rows && r.product.id == id
    ensures r.Missing? <==> forall p :: p in rows ==> p.id != id
  {
    if rows == [] then Missing
    else if rows[0].id == id then Found(rows[0])
    else FindProduct(rows[1..], id)
  }

  /** The reply of the endpoint: a status code and, on 200, the product. */
  datatype Reply = ProductReply(product: Product) | ErrorReply(status: nat, error: string)

  function GetProduct(rows: seq<Product>, id: int): (reply: Reply)
    ensures reply.ErrorReply? <==> forall p :: p in rows ==> p.id != id
    ensures reply.ErrorReply? ==> reply == ErrorReply(404, NotFoundMessage)
    ensures reply.ProductReply? ==> reply.product in rows && reply.product.id == id
  {
    match FindProduct(rows, id)
    case Found(p) => ProductReply(p)
    case Missing => ErrorReply(404, NotFoundMessage)
  }
}
