/** The question categories and the difficulty modes keyed by them. */
module Categories {

  /** The five fact families a quiz question can come from. */
  datatype MathCategory = Tables | Squares | Cubes | Reciprocals | Powers

  /** A difficulty mode: one per fact family, plus mental math and the mixed quiz. */
  datatype Mode = Math(category: MathCategory) | Mental | Mixed

  /** The string key a category is known by in the statistics ledger. */
  function CategoryName(c: MathCategory): string {
    match c
    case Tables => "tables"
    case Squares => "squares"
    case Cubes => "cubes"
    case Reciprocals => "reciprocals"
    case Powers => "powers"
  }
}
