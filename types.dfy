/** The records shared by the components: a signed-in user, a detected
    object with its bounding box, and a shopping match for it. */
module Types {

  datatype Option<+T> = None | Some(value: T)

  datatype User = User(id: string, email: string, name: string)

  /** Coordinates are on the 0..1000 scale the detection service is asked for. */
  datatype BoundingBox = BoundingBox(x: real, y: real, width: real, height: real)

  datatype Product = Product(platform: string, title: string, price: string, link: string, imageUrl: string)

  datatype DetectedObject = DetectedObject(
    id: string,
    name: string,
    brand: string,
    confidence: real,
    boundingBox: BoundingBox,
    products: seq<Product>)
}
