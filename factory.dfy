/**
 * The Factory pattern of the demo: `ProductFactory.CreateProduct` maps a type
 * tag to a freshly built product, and rejects every tag it does not know with
 * an invalid-argument error.
 */
module FactoryPattern {

  /** The two concrete products the factory can build. */
  datatype Product = ConcreteProductA | ConcreteProductB

  /** The exception the factory raises, carried as a value. */
  datatype Error = ArgumentException(message: string)

  datatype Result<T> = Success(value: T) | Failure(error: Error)

  /** The message of the exception raised for an unknown type tag. */
  const InvalidProductType: string := "Invalid product type"

  /** The type tag under which the factory builds product `p`. */
  function TypeTag(p: Product): string
  {
    match p
    case ConcreteProductA => "A"
    case ConcreteProductB => "B"
  }

  /**
   * Builds the product named by `productType`; any tag other than "A" and
   * "B" fails with an `ArgumentException`.
   */
  function CreateProduct(productType: string): (r: Result<Product>)
    ensures r == Success(ConcreteProductA) <==> productType == "A"
    ensures r == Success(ConcreteProductB) <==> productType == "B"
    ensures r.Failure? <==> productType != "A" && productType != "B"
    ensures r.Failure? ==> r.error == ArgumentException(InvalidProductType)
  {
    if productType == "A" then Success(ConcreteProductA)
    else if productType == "B" then Success(ConcreteProductB)
    else Failure(ArgumentException(InvalidProductType))
  }

  /** Every product is built from its own tag, and only from that tag. */
  lemma CreateProductInvertsTypeTag(productType: string)
    ensures forall p: Product :: CreateProduct(TypeTag(p)) == Success(p)
    ensures CreateProduct(productType).Success? <==> exists p: Product :: TypeTag(p) == productType
    ensures CreateProduct(productType).Success? ==> TypeTag(CreateProduct(productType).value) == productType
  {
  }
}
