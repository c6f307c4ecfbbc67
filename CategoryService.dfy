/**
 * Categories: names unique ignoring case, stored without surrounding white
 * space; a category that still has products cannot be deleted.
 */
module CategoryService {
  import opened Wrappers
  import opened Responses
  import opened Entities
  import opened Text
  import opened Data

  const NameTaken: string := "Category name is already taken"
  const CategoryNotFound: string := "Category not found"
  const HasProducts: string := "Category cannot be deleted because it has related products"
  const NotUpdated: string := "Category not updated"
  const Deleted: string := "Category deleted successfully"

  /** Some stored category other than `except` has, lower-cased, the trimmed and lower-cased `name`. */
  predicate NameHeld(categories: map<int, Category>, name: string, except: Option<int>)
  {
    exists k :: k in categories && Some(k) != except && ToLower(categories[k].name) == ToLower(Trim(name))
  }

  /** Names equal ignoring case and surrounding white space. */
  predicate SameName(a: string, b: string)
  {
    ToLower(Trim(a)) == ToLower(Trim(b))
  }

  /**
   * `AddCategoryAsync` as written: the check compares the trimmed name, but
   * the row keeps the name exactly as sent. Returns the response and the new
   * store; `id` is the key the database assigns.
   */
  function AddCategoryAsWritten(categories: map<int, Category>, id: int, dto: CategoryDto)
    : (result: (Response<Category>, map<int, Category>))
    requires id !in categories
    ensures result.0.isSuccess <==> !NameHeld(categories, dto.name, None)
    ensures result.0.isSuccess ==>
      result.1 == categories[id := Category(id, dto.name, dto.description, dto.imageUrl)]
    ensures !result.0.isSuccess ==> result.1 == categories
  {
    if NameHeld(categories, dto.name, None) then
      (FromError(BadRequest, NameTaken), categories)
    else
      var category := Category(id, dto.name, dto.description, dto.imageUrl);
      (Success(category), categories[id := category])
  }

  /**
   * Two requests, " a" and then " A", both pass the check as written, leaving
   * two categories whose names differ only in case.
   */
  lemma AsWrittenAdmitsDuplicateNames()
    ensures var first := AddCategoryAsWritten(map[], 1, CategoryDto(" a", None, None));
            var second := AddCategoryAsWritten(first.1, 2, CategoryDto(" A", None, None));
            && first.0.isSuccess && second.0.isSuccess
            && 1 in second.1 && 2 in second.1
            && EqualsIgnoreCase(second.1[1].name, second.1[2].name)
            && !CategoryNamesCanonical(second.1)
  {
    SpacedNamesCollide(" a", " A");
  }

  /**
   * The example above, for any white-space character followed by any ASCII
   * letter: the name in lower case and then the same name with the letter in
   * upper case both pass the check as written.
   */
  lemma SpacedNamesCollide(lower: string, upper: string)
    requires |lower| == 2 && IsWhiteSpace(lower[0]) && 'a' <= lower[1] <= 'z'
    requires |upper| == 2 && upper[0] == lower[0] && upper[1] as int == lower[1] as int - 32
    ensures var first := AddCategoryAsWritten(map[], 1, CategoryDto(lower, None, None));
            var second := AddCategoryAsWritten(first.1, 2, CategoryDto(upper, None, None));
            && first.0.isSuccess && second.0.isSuccess
            && 1 in second.1 && 2 in second.1
            && EqualsIgnoreCase(second.1[1].name, second.1[2].name)
            && !CategoryNamesCanonical(second.1)
  {
    var first := AddCategoryAsWritten(map[], 1, CategoryDto(lower, None, None));
    assert first.1 == map[1 := Category(1, lower, None, None)];
    TrimOfSpacedLetter(upper);
    assert ToLower(lower) == ToLower(upper) by {
      LowerOfSpaced(lower);
      LowerOfSpaced(upper);
      assert ToLowerChar(upper[1]) == lower[1];
    }
    assert !NameHeld(first.1, upper, None) by {
      forall k | k in first.1
        ensures ToLower(first.1[k].name) != ToLower(Trim(upper))
      {
        assert k == 1 && first.1[k].name == lower;
        assert |ToLower(lower)| != |ToLower(Trim(upper))|;
      }
    }
    var second := AddCategoryAsWritten(first.1, 2, CategoryDto(upper, None, None));
    assert second.1[1].name == lower && second.1[2].name == upper;
  }

  /** A letter after one white-space character trims to that letter alone. */
  lemma TrimOfSpacedLetter(s: string)
    requires |s| == 2 && IsWhiteSpace(s[0]) && !IsWhiteSpace(s[1])
    ensures Trim(s) == s[1..] && |Trim(s)| == 1
  {
    var t := s[1..];
    assert TrimStart(s) == t by {
      assert IsWhiteSpace(s[0]) && !IsWhiteSpace(t[0]);
    }
    assert TrimEnd(t) == t by {
      assert |t| == 1 && !IsWhiteSpace(t[0]);
    }
  }

  /** A two-character string lowers character by character. */
  lemma LowerOfSpaced(s: string)
    requires |s| == 2
    ensures ToLower(s) == [ToLowerChar(s[0]), ToLowerChar(s[1])]
  {
    var r := ToLower(s);
    assert r[0] == ToLowerChar(s[0]) && r[1] == ToLowerChar(s[1]);
  }

  /** Storing a trimmed name no other category holds, ignoring case, keeps names canonical. */
  lemma StoreKeepsCanonical(categories: map<int, Category>, c: Category)
    requires CategoryNamesCanonical(categories)
    requires Trimmed(c.name)
    requires forall k :: k in categories && k != c.id ==> ToLower(categories[k].name) != ToLower(c.name)
    ensures CategoryNamesCanonical(categories[c.id := c])
  {
  }

  /** The category a successful add stores under key `id`: the request with its name trimmed. */
  function NewCategory(id: int, dto: CategoryDto): Category
  {
    Category(id, Trim(dto.name), dto.description, dto.imageUrl)
  }

  /** `AddCategoryAsync`, storing the trimmed name its own check compares. */
  method AddCategory(ctx: DataContext, dto: CategoryDto) returns (r: Response<Category>)
    requires ctx.Valid()
    modifies ctx`categories, ctx`nextId
    ensures ctx.Valid()
    ensures r.isSuccess <==> !NameHeld(old(ctx.categories), dto.name, None)
    ensures !r.isSuccess ==>
      r == FromError(BadRequest, NameTaken) && ctx.categories == old(ctx.categories) && ctx.nextId == old(ctx.nextId)
    ensures r.isSuccess ==>
      var c := NewCategory(old(ctx.nextId), dto);
      old(ctx.nextId) !in old(ctx.categories) && r == Success(c) &&
      ctx.categories == old(ctx.categories)[c.id := c] && ctx.nextId == old(ctx.nextId) + 1
  {
    if NameHeld(ctx.categories, dto.name, None) {
      return FromError(BadRequest, NameTaken);
    }
    var c := NewCategory(ctx.nextId, dto);
    AddKeepsCanonical(ctx.categories, ctx.nextId, dto);
    InsertCategory(ctx, c);
    r := Success(c);
  }

  /** Stores `c` under the next key, given that names stay canonical with it. */
  method InsertCategory(ctx: DataContext, c: Category)
    requires ctx.Valid() && c.id == ctx.nextId
    requires CategoryNamesCanonical(ctx.categories[c.id := c])
    modifies ctx`categories, ctx`nextId
    ensures ctx.Valid()
    ensures ctx.categories == old(ctx.categories)[c.id := c] && ctx.nextId == old(ctx.nextId) + 1
  {
    ctx.categories := ctx.categories[c.id := c];
    ctx.nextId := ctx.nextId + 1;
  }

  /** A category the add check lets through, stored under its trimmed name, keeps names canonical. */
  lemma AddKeepsCanonical(categories: map<int, Category>, id: int, dto: CategoryDto)
    requires CategoryNamesCanonical(categories)
    requires !NameHeld(categories, dto.name, None)
    ensures CategoryNamesCanonical(categories[id := NewCategory(id, dto)])
  {
    var c := NewCategory(id, dto);
    assert forall k :: k in categories && k != c.id ==> ToLower(categories[k].name) != ToLower(c.name);
    TrimIsTrimmed(dto.name);
    StoreKeepsCanonical(categories, c);
  }

  /**
   * Against a store of trimmed names, the add check rejects exactly the names
   * that equal a stored one ignoring case and surrounding white space.
   */
  lemma NameHeldMeansSameName(categories: map<int, Category>, name: string, except: Option<int>)
    requires forall k :: k in categories ==> Trimmed(categories[k].name)
    ensures NameHeld(categories, name, except) <==>
      exists k :: k in categories && Some(k) != except && SameName(categories[k].name, name)
  {
    forall k | k in categories
      ensures ToLower(categories[k].name) == ToLower(Trim(categories[k].name))
    {
      TrimOfTrimmed(categories[k].name);
    }
  }

  /**
   * A rename the update accepts leaves a trimmed name that no other category
   * holds: when the check is skipped the new name equals the stored, trimmed
   * one ignoring case, so it is trimmed too and the stored names already
   * differ from it.
   */
  lemma RenameIsFree(categories: map<int, Category>, id: int, name: string)
    requires CategoryNamesCanonical(categories) && id in categories
    requires EqualsIgnoreCase(categories[id].name, name) || !NameHeld(categories, name, Some(id))
    ensures Trimmed(Trim(name))
    ensures forall k :: k in categories && k != id ==> ToLower(categories[k].name) != ToLower(Trim(name))
  {
    TrimIsTrimmed(name);
    if EqualsIgnoreCase(categories[id].name, name) {
      ToLowerKeepsTrimmed(categories[id].name);
      ToLowerKeepsTrimmed(name);
      TrimOfTrimmed(name);
    }
  }

  /** A rename the update accepts keeps the store's names canonical. */
  lemma UpdateKeepsCanonical(categories: map<int, Category>, c: Category, name: string)
    requires CategoryNamesCanonical(categories) && c.id in categories && c.name == Trim(name)
    requires EqualsIgnoreCase(categories[c.id].name, name) || !NameHeld(categories, name, Some(c.id))
    ensures CategoryNamesCanonical(categories[c.id := c])
  {
    RenameIsFree(categories, c.id, name);
    StoreKeepsCanonical(categories, c);
  }

  /** `UpdateCategoryAsync`: the name check is skipped when the name changes only in case. */
  method UpdateCategory(ctx: DataContext, id: int, dto: CategoryDto) returns (r: Response<Category>)
    requires ctx.Valid()
    modifies ctx`categories
    ensures ctx.Valid()
    ensures id !in old(ctx.categories) ==> r == FromError(NotFound, CategoryNotFound)
    ensures (id in old(ctx.categories) && !EqualsIgnoreCase(old(ctx.categories)[id].name, dto.name) &&
             NameHeld(old(ctx.categories), dto.name, Some(id))) ==>
      r == FromError(BadRequest, NameTaken)
    ensures (id in old(ctx.categories) &&
             (EqualsIgnoreCase(old(ctx.categories)[id].name, dto.name) || !NameHeld(old(ctx.categories), dto.name, Some(id))) &&
             NewCategory(id, dto) == old(ctx.categories)[id]) ==>
      r == FromError(BadRequest, NotUpdated)
    ensures r.isSuccess <==>
      id in old(ctx.categories) &&
      (EqualsIgnoreCase(old(ctx.categories)[id].name, dto.name) || !NameHeld(old(ctx.categories), dto.name, Some(id))) &&
      NewCategory(id, dto) != old(ctx.categories)[id]
    ensures r.isSuccess ==>
      r == Success(NewCategory(id, dto)) && ctx.categories == old(ctx.categories)[id := NewCategory(id, dto)]
    ensures !r.isSuccess ==> ctx.categories == old(ctx.categories)
  {
    if id !in ctx.categories {
      return FromError(NotFound, CategoryNotFound);
    }
    var category := ctx.categories[id];
    if !EqualsIgnoreCase(category.name, dto.name) && NameHeld(ctx.categories, dto.name, Some(id)) {
      return FromError(BadRequest, NameTaken);
    }
    var updated := NewCategory(id, dto);
    if updated == category {
      return FromError(BadRequest, NotUpdated);
    }
    UpdateKeepsCanonical(ctx.categories, updated, dto.name);
    ReplaceCategory(ctx, updated);
    r := Success(updated);
  }

  /** Stores `c` over the category with its key, given that names stay canonical with it. */
  method ReplaceCategory(ctx: DataContext, c: Category)
    requires ctx.Valid() && c.id in ctx.categories
    requires CategoryNamesCanonical(ctx.categories[c.id := c])
    modifies ctx`categories
    ensures ctx.Valid()
    ensures ctx.categories == old(ctx.categories)[c.id := c]
  {
    ctx.categories := ctx.categories[c.id := c];
  }

  /** The category has at least one product. */
  predicate HasAnyProduct(products: map<int, Product>, categoryId: int)
  {
    exists k :: k in products && products[k].categoryId == categoryId
  }

  /** `DeleteCategoryAsync`: refused while products remain; the category's links go with it. */
  method DeleteCategory(ctx: DataContext, id: int) returns (r: Response<string>)
    requires ctx.Valid()
    modifies ctx`categories, ctx`restaurantCategories
    ensures ctx.Valid()
    ensures id !in old(ctx.categories) ==> r == FromError(NotFound, CategoryNotFound)
    ensures id in old(ctx.categories) && HasAnyProduct(ctx.products, id) ==> r == FromError(BadRequest, HasProducts)
    ensures r.isSuccess <==> id in old(ctx.categories) && !HasAnyProduct(ctx.products, id)
    ensures r.isSuccess ==>
      r == Success(Deleted) && ctx.categories == old(ctx.categories) - {id} &&
      ctx.restaurantCategories == (set l | l in old(ctx.restaurantCategories) && l.categoryId != id)
    ensures !r.isSuccess ==>
      ctx.categories == old(ctx.categories) && ctx.restaurantCategories == old(ctx.restaurantCategories)
  {
    if id !in ctx.categories {
      return FromError(NotFound, CategoryNotFound);
    }
    if HasAnyProduct(ctx.products, id) {
      return FromError(BadRequest, HasProducts);
    }
    ctx.categories := ctx.categories - {id};
    ctx.restaurantCategories := set l | l in ctx.restaurantCategories && l.categoryId != id;
    r := Success(Deleted);
  }
}
