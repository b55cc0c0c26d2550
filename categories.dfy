/**
 * Categories with embedded subcategories (controllers/category.controller.js). `save()` validates
 * the whole document against models/category.model.js: the category name and every subcategory
 * name are required, which rejects the empty string. `findByIdAndUpdate` runs no validators.
 */
module Categories {
  import opened Common
  import opened Store

  /** A document the schema's `required` validators accept. */
  predicate ValidCategory(c: Category) {
    c.categoryName != "" && forall i :: 0 <= i < |c.subcategories| ==> c.subcategories[i].subCategoryName != ""
  }

  /**
   * addCategory (category.controller.js:4-13): a category with the given name and description and
   * no subcategories; ValidationFailed, and nothing saved, for an empty name. `id` is the id the
   * store assigns.
   */
  method AddCategory(db: Database, categoryName: string, description: string, id: Id) returns (r: Result<Category>)
    requires id !in db.categories
    modifies db`categories
    ensures categoryName == "" ==> r == Err(ValidationFailed) && db.categories == old(db.categories)
    ensures categoryName != "" ==>
      r == Ok(Category(categoryName, description, []))
      && db.categories == old(db.categories)[id := Category(categoryName, description, [])]
  {
    var category := Category(categoryName, description, []);
    if !ValidCategory(category) {
      return Err(ValidationFailed);
    }
    db.categories := db.categories[id := category];
    r := Ok(category);
  }

  /** The category after `push({ subCategoryName, description })`. */
  function WithSubcategory(c: Category, sub: Subcategory): (r: Category)
    ensures |r.subcategories| == |c.subcategories| + 1
    ensures r.subcategories[..|c.subcategories|] == c.subcategories
    ensures r.subcategories[|c.subcategories|] == sub
    ensures r.categoryName == c.categoryName && r.description == c.description
  {
    c.(subcategories := c.subcategories + [sub])
  }

  /**
   * For a stored category the schema accepts, appending is accepted exactly when the new
   * subcategory has a name; validity is kept.
   */
  lemma AppendValidity(c: Category, sub: Subcategory)
    requires ValidCategory(c)
    ensures ValidCategory(WithSubcategory(c, sub)) <==> sub.subCategoryName != ""
  {
  }

  /**
   * addSubcategory (category.controller.js:16-31): NotFound for a missing category; otherwise the
   * subcategory is appended and the document saved. A failing validation saves nothing.
   */
  method AddSubcategory(db: Database, categoryId: Id, subCategoryName: string, description: string)
    returns (r: Result<Category>)
    modifies db`categories
    ensures categoryId !in old(db.categories) ==> r == Err(NotFound) && db.categories == old(db.categories)
    ensures categoryId in old(db.categories) ==>
      var updated := WithSubcategory(old(db.categories)[categoryId], Subcategory(subCategoryName, description));
      if ValidCategory(updated) then
        r == Ok(updated) && db.categories == old(db.categories)[categoryId := updated]
      else
        r == Err(ValidationFailed) && db.categories == old(db.categories)
  {
    if categoryId !in db.categories {
      return Err(NotFound);
    }
    var updated := WithSubcategory(db.categories[categoryId], Subcategory(subCategoryName, description));
    if !ValidCategory(updated) {
      return Err(ValidationFailed);
    }
    db.categories := db.categories[categoryId := updated];
    r := Ok(updated);
  }

  /** The category after `{ categoryName, description }` is written over it. */
  function Renamed(c: Category, categoryName: string, description: string): (r: Category)
    ensures r.categoryName == categoryName && r.description == description
    ensures r.subcategories == c.subcategories
  {
    c.(categoryName := categoryName, description := description)
  }

  /** Updating twice keeps only the second update's fields; the subcategories are never touched. */
  lemma RenamedTwice(c: Category, n1: string, d1: string, n2: string, d2: string)
    ensures Renamed(Renamed(c, n1, d1), n2, d2) == Renamed(c, n2, d2)
  {
  }

  /**
   * updateCategory (category.controller.js:44-61): NotFound for a missing id; otherwise only the
   * name and the description change. No validator runs, so an empty name is stored.
   */
  method UpdateCategory(db: Database, id: Id, categoryName: string, description: string) returns (r: Result<Category>)
    modifies db`categories
    ensures id !in old(db.categories) ==> r == Err(NotFound) && db.categories == old(db.categories)
    ensures id in old(db.categories) ==>
      r == Ok(Renamed(old(db.categories)[id], categoryName, description))
      && db.categories == old(db.categories)[id := Renamed(old(db.categories)[id], categoryName, description)]
  {
    if id !in db.categories {
      return Err(NotFound);
    }
    var updated := Renamed(db.categories[id], categoryName, description);
    db.categories := db.categories[id := updated];
    r := Ok(updated);
  }

  /**
   * deleteCategory (category.controller.js:64-75): NotFound for a missing id; otherwise the
   * category, with its embedded subcategories, is removed and answered.
   */
  method DeleteCategory(db: Database, id: Id) returns (r: Result<Category>)
    modifies db`categories
    ensures id !in old(db.categories) ==> r == Err(NotFound) && db.categories == old(db.categories)
    ensures id in old(db.categories) ==>
      r == Ok(old(db.categories)[id]) && db.categories == old(db.categories) - {id}
  {
    if id !in db.categories {
      return Err(NotFound);
    }
    r := Ok(db.categories[id]);
    db.categories := db.categories - {id};
  }
}
