/** Category handles (fxprof-processed-profile/src/category.rs). */
module Categories {
  import opened Prelude

  datatype CategoryPair = CategoryPair(category: nat, subcategory: Option<nat>)

  datatype Subcategory = Normal(index: nat) | Other(category: nat)

  function SubcategoryOf(pair: CategoryPair): Subcategory {
    match pair.subcategory
    case Some(index) => Normal(index)
    case None => Other(pair.category)
  }
}
