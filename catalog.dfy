/** The catalog and its admin pages (`src/routes/products.js`): the listing
    query builder, the stored image path, product create / edit / soft
    delete over the shop's product table, and the public detail lookup. */
module Catalog {
  import opened Base
  import opened Text
  import opened Schema

  // ---------------------------------------------------------------------
  // GET /products: the listing query

  /** The query string of GET /products. Text filters that are absent are
      the empty string (their default); `page` and `pageSize` are the
      numbers the handler converts them to, `None` when absent. */
  datatype ListingQuery = ListingQuery(
    q: string,
    category: string,
    minPrice: string,
    maxPrice: string,
    page: Option<int>,
    pageSize: Option<int>)

  /** A bound parameter: a text, or the number a text converts to (the
      conversion itself is not modelled), or an integer. */
  datatype SqlParam = TextParam(text: string) | NumberOf(source: string) | IntParam(n: int)

  /** SQL text as literal pieces and `?` placeholders. */
  datatype SqlToken = Sql(text: string) | Placeholder
  type Statement = seq<SqlToken>

  function Placeholders(t: Statement): nat
  {
    if t == [] then 0 else Placeholders(t[..|t| - 1]) + (if t[|t| - 1].Placeholder? then 1 else 0)
  }

  lemma {:induction false} PlaceholdersAppend(a: Statement, b: Statement)
    ensures Placeholders(a + b) == Placeholders(a) + Placeholders(b)
    decreases |b|
  {
    if b == [] {
      assert a + b == a;
    } else {
      assert (a + b)[..|a + b| - 1] == a + b[..|b| - 1];
      PlaceholdersAppend(a, b[..|b| - 1]);
    }
  }

  lemma PlaceholdersSingle(x: SqlToken)
    ensures Placeholders([x]) == if x.Placeholder? then 1 else 0
  {
    assert [x][..0] == [];
  }

  /** One optional conjunct of the WHERE clause with the parameter it binds. */
  datatype Filter = Filter(fragment: Statement, param: SqlParam)

  const ActiveOnly: Statement := [Sql("WHERE is_active = 1")]
  const NameLike: Statement := [Sql(" AND name LIKE "), Placeholder]
  const InCategory: Statement := [Sql(" AND category = "), Placeholder]
  const MinPrice: Statement := [Sql(" AND price >= "), Placeholder]
  const MaxPrice: Statement := [Sql(" AND price <= "), Placeholder]
  const ListingHead: Statement := [Sql("SELECT SQL_CALC_FOUND_ROWS id, name, price, image_url FROM products ")]
  const ListingTail: Statement := [Sql(" ORDER BY created_at DESC LIMIT "), Placeholder, Sql(" OFFSET "), Placeholder]

  const DefaultPage: int := 1
  const DefaultPageSize: int := 12

  function PageOf(query: ListingQuery): int
  {
    if query.page.Some? then query.page.value else DefaultPage
  }

  function PageSizeOf(query: ListingQuery): int
  {
    if query.pageSize.Some? then query.pageSize.value else DefaultPageSize
  }

  /** Rows skipped before the requested page. */
  function ListingOffset(query: ListingQuery): (offset: int)
    ensures PageOf(query) == 1 ==> offset == 0
    ensures query.page.None? && query.pageSize.None? ==> offset == 0
  {
    (PageOf(query) - 1) * PageSizeOf(query)
  }

  /** Consecutive pages start exactly one page size apart. */
  lemma NextPageOffset(query: ListingQuery)
    ensures var next := query.(page := Some(PageOf(query) + 1));
      ListingOffset(next) == ListingOffset(query) + PageSizeOf(query)
  {
  }

  /** An `AND` conjunct: a text piece starting with " AND ", then one placeholder. */
  predicate IsConjunct(t: Statement)
  {
    |t| == 2 && t[0].Sql? && StartsWith(t[0].text, " AND ") && t[1] == Placeholder
  }

  function When(on: bool, f: Filter): seq<Filter>
  {
    if on then [f] else []
  }

  /** The filters a query turns on, in the order the handler appends them:
      each non-empty text input contributes one conjunct. */
  function ActiveFilters(query: ListingQuery): (fs: seq<Filter>)
    ensures |fs| == (if query.q != "" then 1 else 0) + (if query.category != "" then 1 else 0)
                  + (if query.minPrice != "" then 1 else 0) + (if query.maxPrice != "" then 1 else 0)
  {
    When(query.q != "", Filter(NameLike, TextParam("%" + query.q + "%")))
    + When(query.category != "", Filter(InCategory, TextParam(query.category)))
    + When(query.minPrice != "", Filter(MinPrice, NumberOf(query.minPrice)))
    + When(query.maxPrice != "", Filter(MaxPrice, NumberOf(query.maxPrice)))
  }

  /** Every filter contributes an `AND` conjunct with one placeholder. */
  lemma FiltersAreConjuncts(query: ListingQuery)
    ensures forall f :: f in ActiveFilters(query) ==> IsConjunct(f.fragment)
  {
    FragmentsAreConjuncts();
    var a := When(query.q != "", Filter(NameLike, TextParam("%" + query.q + "%")));
    var b := When(query.category != "", Filter(InCategory, TextParam(query.category)));
    var c := When(query.minPrice != "", Filter(MinPrice, NumberOf(query.minPrice)));
    var d := When(query.maxPrice != "", Filter(MaxPrice, NumberOf(query.maxPrice)));
    assert ActiveFilters(query) == a + b + c + d;
  }

  /** The four optional fragments are conjuncts. */
  lemma FragmentsAreConjuncts()
    ensures IsConjunct(NameLike) && IsConjunct(InCategory) && IsConjunct(MinPrice) && IsConjunct(MaxPrice)
  {
    assert NameLike[0].text[..5] == " AND ";
    assert InCategory[0].text[..5] == " AND ";
    assert MinPrice[0].text[..5] == " AND ";
    assert MaxPrice[0].text[..5] == " AND ";
  }

  function Fragments(fs: seq<Filter>): Statement
  {
    if fs == [] then [] else Fragments(fs[..|fs| - 1]) + fs[|fs| - 1].fragment
  }

  function Params(fs: seq<Filter>): (ps: seq<SqlParam>)
    ensures |ps| == |fs|
    ensures forall i :: 0 <= i < |fs| ==> ps[i] == fs[i].param
  {
    seq(|fs|, i requires 0 <= i < |fs| => fs[i].param)
  }

  lemma AppendFragment(fs: seq<Filter>, f: Filter)
    ensures Fragments(fs + [f]) == Fragments(fs) + f.fragment
  {
    assert (fs + [f])[..|fs|] == fs;
  }

  /** Appending a filter's fragment and parameter keeps the built text and
      parameters in step with the filters chosen so far. */
  lemma AppendFilter(where: Statement, params: seq<SqlParam>, fs: seq<Filter>, f: Filter)
    requires where == ActiveOnly + Fragments(fs) && params == Params(fs)
    ensures where + f.fragment == ActiveOnly + Fragments(fs + [f])
    ensures params + [f.param] == Params(fs + [f])
  {
    AppendFragment(fs, f);
  }

  /** The WHERE clause the handler builds for a query. */
  function WhereClause(query: ListingQuery): Statement
  {
    ActiveOnly + Fragments(ActiveFilters(query))
  }

  /** Conjuncts carry one placeholder each, and every text piece they
      contribute starts with " AND ". */
  lemma {:induction false} FragmentsShape(fs: seq<Filter>)
    requires forall f :: f in fs ==> IsConjunct(f.fragment)
    ensures Placeholders(Fragments(fs)) == |fs|
    ensures forall i :: 0 <= i < |Fragments(fs)| && Fragments(fs)[i].Sql? ==>
      StartsWith(Fragments(fs)[i].text, " AND ")
  {
    if fs != [] {
      var init := fs[..|fs| - 1];
      var last := fs[|fs| - 1];
      assert last in fs;
      assert forall f :: f in init ==> f in fs;
      FragmentsShape(init);
      PlaceholdersAppend(Fragments(init), last.fragment);
      assert last.fragment == [last.fragment[0]] + [last.fragment[1]];
      PlaceholdersAppend([last.fragment[0]], [last.fragment[1]]);
      PlaceholdersSingle(last.fragment[0]);
      PlaceholdersSingle(last.fragment[1]);
    }
  }

  /** The WHERE clause starts with the active-only condition, every later
      text piece is an `AND` conjunct, and it holds one placeholder per
      bound filter parameter. */
  lemma WhereShape(query: ListingQuery)
    ensures var w := WhereClause(query);
      && w[..1] == ActiveOnly
      && (forall i :: 1 <= i < |w| && w[i].Sql? ==> StartsWith(w[i].text, " AND "))
      && Placeholders(w) == |Params(ActiveFilters(query))|
  {
    FiltersAreConjuncts(query);
    ConjunctsShape(ActiveFilters(query));
  }

  /** The shape of the active-only condition followed by any conjuncts. */
  lemma ConjunctsShape(fs: seq<Filter>)
    requires forall f :: f in fs ==> IsConjunct(f.fragment)
    ensures var w := ActiveOnly + Fragments(fs);
      && w[..1] == ActiveOnly
      && (forall i :: 1 <= i < |w| && w[i].Sql? ==> StartsWith(w[i].text, " AND "))
      && Placeholders(w) == |fs|
  {
    FragmentsShape(fs);
    PlaceholdersAppend(ActiveOnly, Fragments(fs));
    PlaceholdersSingle(ActiveOnly[0]);
    assert ActiveOnly == [ActiveOnly[0]];
    var w := ActiveOnly + Fragments(fs);
    forall i | 1 <= i < |w| && w[i].Sql? ensures StartsWith(w[i].text, " AND ") {
      assert w[i] == Fragments(fs)[i - 1];
    }
  }

  /** One `if (input) { where += fragment; params.push(param) }` step of the
      listing handler. */
  method AppendWhen(on: bool, f: Filter, where: Statement, params: seq<SqlParam>, ghost fs: seq<Filter>)
    returns (where': Statement, params': seq<SqlParam>)
    requires where == ActiveOnly + Fragments(fs) && params == Params(fs)
    ensures where' == ActiveOnly + Fragments(fs + When(on, f))
    ensures params' == Params(fs + When(on, f))
  {
    if on {
      AppendFilter(where, params, fs, f);
      where' := where + f.fragment;
      params' := params + [f.param];
    } else {
      assert fs + When(on, f) == fs;
      where', params' := where, params;
    }
  }

  /** The filter steps of GET /products: starting from the active-only
      condition, each non-empty input appends its conjunct and its
      parameter, in the handler's order. */
  method BuildWhere(query: ListingQuery) returns (where: Statement, params: seq<SqlParam>)
    ensures where == WhereClause(query)
    ensures params == Params(ActiveFilters(query))
  {
    params := [];
    where := ActiveOnly;
    assert ActiveOnly + Fragments([]) == ActiveOnly;
    ghost var fs: seq<Filter> := [];
    var nameLike := Filter(NameLike, TextParam("%" + query.q + "%"));
    where, params := AppendWhen(query.q != "", nameLike, where, params, fs);
    fs := fs + When(query.q != "", nameLike);
    var inCategory := Filter(InCategory, TextParam(query.category));
    where, params := AppendWhen(query.category != "", inCategory, where, params, fs);
    fs := fs + When(query.category != "", inCategory);
    var minPrice := Filter(MinPrice, NumberOf(query.minPrice));
    where, params := AppendWhen(query.minPrice != "", minPrice, where, params, fs);
    fs := fs + When(query.minPrice != "", minPrice);
    var maxPrice := Filter(MaxPrice, NumberOf(query.maxPrice));
    where, params := AppendWhen(query.maxPrice != "", maxPrice, where, params, fs);
    fs := fs + When(query.maxPrice != "", maxPrice);
    assert [] + When(query.q != "", nameLike) == When(query.q != "", nameLike);
    assert fs == ActiveFilters(query);
  }

  /** GET /products: the WHERE clause and its parameters, then the full
      statement with its LIMIT and OFFSET arguments. */
  method BuildListing(query: ListingQuery) returns (sql: Statement, args: seq<SqlParam>)
    ensures sql == ListingHead + WhereClause(query) + ListingTail
    ensures args == Params(ActiveFilters(query)) + [IntParam(PageSizeOf(query)), IntParam(ListingOffset(query))]
    ensures Placeholders(sql) == |args|
  {
    var page := PageOf(query);
    var pageSize := PageSizeOf(query);
    var offset := (page - 1) * pageSize;
    var where, params := BuildWhere(query);
    sql := ListingHead + where + ListingTail;
    args := params + [IntParam(pageSize), IntParam(offset)];
    ListingPlaceholders(query);
  }

  /** The statement's placeholders match its arguments one for one. */
  lemma ListingPlaceholders(query: ListingQuery)
    ensures Placeholders(ListingHead + WhereClause(query) + ListingTail)
         == |Params(ActiveFilters(query))| + 2
  {
    WhereShape(query);
    PlaceholdersAppend(ListingHead, WhereClause(query));
    PlaceholdersAppend(ListingHead + WhereClause(query), ListingTail);
    var t := ListingTail;
    assert t == [t[0]] + [t[1]] + [t[2]] + [t[3]];
    PlaceholdersSingle(t[0]);
    PlaceholdersSingle(t[1]);
    PlaceholdersSingle(t[2]);
    PlaceholdersSingle(t[3]);
    PlaceholdersAppend([t[0]], [t[1]]);
    PlaceholdersAppend([t[0]] + [t[1]], [t[2]]);
    PlaceholdersAppend([t[0]] + [t[1]] + [t[2]], [t[3]]);
  }

  // ---------------------------------------------------------------------
  // The stored image path

  /** Both backslash rewrites: each doubled backslash, then each single one,
      becomes a forward slash. */
  function ForwardSlashes(s: string): (r: string)
    ensures '\\' !in r
    ensures NoDoubledBackslash(s) ==>
      |r| == |s| && forall i :: 0 <= i < |s| ==> r[i] == if s[i] == '\\' then '/' else s[i]
  {
    ReplaceAllRemovesChar(ReplaceAll(s, "\\\\", "/"), '\\', "/");
    SingleBackslashesBecomeSlashes(s);
    ReplaceAll(ReplaceAll(s, "\\\\", "/"), "\\", "/")
  }

  /** No two backslashes stand next to each other, as in a Windows path. */
  predicate NoDoubledBackslash(s: string)
  {
    forall j :: 0 <= j <= |s| ==> !OccursAt(s, "\\\\", j)
  }

  /** In a text without doubled backslashes, the first rewrite finds nothing
      and the second turns each backslash into a slash. */
  lemma SingleBackslashesBecomeSlashes(s: string)
    ensures NoDoubledBackslash(s) ==>
      var r := ReplaceAll(ReplaceAll(s, "\\\\", "/"), "\\", "/");
      |r| == |s| && forall i :: 0 <= i < |s| ==> r[i] == if s[i] == '\\' then '/' else s[i]
  {
    if NoDoubledBackslash(s) {
      ReplaceAllNoOccurrence(s, "\\\\", "/");
      ReplaceCharPointwise(s, '\\', '/');
    }
  }

  /** The path stored for an uploaded image: the processed file's path with
      the working directory's first occurrence removed, backslashes turned
      into slashes, and one leading slash dropped. */
  function ImagePath(processed: string, cwd: string): (r: string)
    ensures '\\' !in r
    ensures var u := ForwardSlashes(ReplaceFirst(processed, cwd, ""));
      && (StartsWith(u, "/") ==> u == "/" + r)
      && (!StartsWith(u, "/") ==> r == u)
  {
    var u := ForwardSlashes(ReplaceFirst(processed, cwd, ""));
    if StartsWith(u, "/") then
      assert u == "/" + u[1..];
      u[1..]
    else u
  }

  /** A processed path under the working directory is stored relative to it. */
  lemma CwdPrefixRemoved(cwd: string, rest: string)
    requires '\\' !in rest
    ensures ImagePath(cwd + rest, cwd) == if StartsWith(rest, "/") then rest[1..] else rest
  {
    ReplaceFirstOfPrefix(cwd, rest);
    ReplaceAllNoMatch(rest, "\\\\", "/");
    ReplaceAllNoMatch(rest, "\\", "/");
  }

  /** A processed path under the working directory whose rest has no doubled
      backslash (a Windows path) is stored relative to that directory, each
      backslash turned into a slash, and a leading separator dropped. */
  lemma WindowsPathUnderCwd(cwd: string, rest: string)
    requires NoDoubledBackslash(rest)
    ensures var r := ImagePath(cwd + rest, cwd);
      var n := if rest != [] && (rest[0] == '/' || rest[0] == '\\') then 1 else 0;
      |r| == |rest| - n
      && forall i :: 0 <= i < |r| ==> r[i] == if rest[i + n] == '\\' then '/' else rest[i + n]
  {
    ReplaceFirstOfPrefix(cwd, rest);
    LeadingSlashDropped(rest, ForwardSlashes(rest), ImagePath(cwd + rest, cwd));
  }

  /** `u` is `rest` with each backslash turned into a slash, and `r` is `u`
      without its leading slash, if any: then `r` is `rest` without a leading
      separator, with each backslash turned into a slash. */
  lemma LeadingSlashDropped(rest: string, u: string, r: string)
    requires |u| == |rest| && forall i :: 0 <= i < |rest| ==> u[i] == if rest[i] == '\\' then '/' else rest[i]
    requires StartsWith(u, "/") ==> u == "/" + r
    requires !StartsWith(u, "/") ==> r == u
    ensures var n := if rest != [] && (rest[0] == '/' || rest[0] == '\\') then 1 else 0;
      |r| == |rest| - n
      && forall i :: 0 <= i < |r| ==> r[i] == if rest[i + n] == '\\' then '/' else rest[i + n]
  {
    if rest != [] && (rest[0] == '/' || rest[0] == '\\') {
      assert u[..1] == "/";
      forall i | 0 <= i < |r|
        ensures r[i] == if rest[i + 1] == '\\' then '/' else rest[i + 1]
      {
        assert r[i] == u[i + 1];
      }
    }
  }

  // ---------------------------------------------------------------------
  // Admin create / edit / soft delete

  /** The value `Number(...)` gives a form field. */
  datatype NumberValue = NotANumber | Numeric(value: real)

  /** The admin product form. `price` and `stock` are `None` when the text
      is not a number (an integer for stock); optional texts are `None`
      when the field is absent. */
  datatype ProductForm = ProductForm(
    name: string,
    description: Option<string>,
    price: Option<Cents>,
    stock: Option<int>,
    category: Option<string>,
    isActive: Option<NumberValue>,
    existingImageUrl: Option<string>)

  /** The validation chain: trimmed name of at least 2 characters, a price
      that is a number >= 0 and a stock that is an integer >= 0. */
  predicate ProductFormValid(form: ProductForm): (ok: bool)
    ensures ok ==> |form.name| >= 2 && form.price.Some? && form.stock.Some?
    ensures Blank(form.name) || form.price.None? || form.stock.None? ==> !ok
    ensures form.price.Some? && form.price.value < 0 ==> !ok
    ensures form.stock.Some? && form.stock.value < 0 ==> !ok
  {
    && |Trim(form.name)| >= 2
    && form.price.Some? && form.price.value >= 0
    && form.stock.Some? && form.stock.value >= 0
  }

  function OrEmpty(s: Option<string>): string
  {
    if s.Some? then s.value else ""
  }

  /** `Number(is_active) ? 1 : 0` with `is_active` defaulting to '1'. */
  function ActiveFlag(v: Option<NumberValue>): (active: bool)
    ensures v.None? ==> active
    ensures v == Some(NotANumber) ==> !active
    ensures v.Some? && v.value.Numeric? ==> (active <==> v.value.value != 0.0)
  {
    match v
    case None => true
    case Some(NotANumber) => false
    case Some(Numeric(x)) => x != 0.0
  }

  /** The image column: a fresh upload's normalised path, otherwise the
      fallback (`null` for create, the non-empty existing URL for edit). */
  function ImageFor(upload: Option<string>, cwd: string, fallback: Option<string>): (r: Option<string>)
    ensures upload.Some? ==> r == Some(ImagePath(upload.value, cwd))
    ensures upload.None? ==> r == fallback
  {
    if upload.Some? then Some(ImagePath(upload.value, cwd)) else fallback
  }

  /** `existing_image_url || null`: the empty text counts as absent. */
  function ExistingImage(form: ProductForm): (r: Option<string>)
    ensures r.Some? ==> r.value != "" && r == form.existingImageUrl
    ensures form.existingImageUrl.Some? && form.existingImageUrl.value != "" ==> r == form.existingImageUrl
  {
    if form.existingImageUrl.Some? && form.existingImageUrl.value != "" then form.existingImageUrl else None
  }

  /** The row a valid form describes; a created product is active. */
  function ProductFromForm(form: ProductForm, image: Option<string>, active: bool): (p: Product)
    requires ProductFormValid(form)
    ensures p.stock >= 0 && p.price >= 0 && |p.name| >= 2
    ensures p.imageUrl == image && p.isActive == active
    ensures p.name == Trim(form.name) && p.price == form.price.value && p.stock == form.stock.value
    ensures p.description == OrEmpty(form.description) && p.category == OrEmpty(form.category)
  {
    Product(Trim(form.name), OrEmpty(form.description), form.price.value, form.stock.value,
            image, OrEmpty(form.category), active)
  }

  /** POST /admin/products/new: an invalid form writes nothing; a valid one
      inserts one product under the next id. `upload` is the processed
      path of an uploaded image, if any. */
  method CreateProduct(shop: Shop, form: ProductForm, upload: Option<string>, cwd: string) returns (created: bool)
    requires shop.Valid()
    modifies shop
    ensures shop.Valid()
    ensures created <==> ProductFormValid(form)
    ensures !created ==> unchanged(shop)
    ensures created ==>
      && old(shop.nextProductId) !in old(shop.products)
      && shop.products == old(shop.products)[old(shop.nextProductId) :=
           ProductFromForm(form, ImageFor(upload, cwd, None), true)]
      && shop.nextProductId == old(shop.nextProductId) + 1
      && shop.carts == old(shop.carts) && shop.orders == old(shop.orders)
      && shop.orderItems == old(shop.orderItems) && shop.nextOrderId == old(shop.nextOrderId)
  {
    if !ProductFormValid(form) {
      return false;
    }
    var imageUrl: Option<string> := None;
    if upload.Some? {
      imageUrl := Some(ImagePath(upload.value, cwd));
    }
    var product := ProductFromForm(form, imageUrl, true);
    var _ := shop.InsertProduct(product);
    return true;
  }

  /** POST /admin/products/:id/edit: an invalid form writes nothing; a valid
      one rewrites every column of product `id`, and of nothing else (an
      unknown id matches no row). */
  method EditProduct(shop: Shop, id: ProductId, form: ProductForm, upload: Option<string>, cwd: string)
    returns (saved: bool)
    requires shop.Valid()
    modifies shop
    ensures shop.Valid()
    ensures saved <==> ProductFormValid(form)
    ensures !saved || id !in old(shop.products) ==> unchanged(shop)
    ensures saved && id in old(shop.products) ==>
      && shop.products == old(shop.products)[id :=
           ProductFromForm(form, ImageFor(upload, cwd, ExistingImage(form)), ActiveFlag(form.isActive))]
      && shop.nextProductId == old(shop.nextProductId)
      && shop.carts == old(shop.carts) && shop.orders == old(shop.orders)
      && shop.orderItems == old(shop.orderItems) && shop.nextOrderId == old(shop.nextOrderId)
  {
    if !ProductFormValid(form) {
      return false;
    }
    var imageUrl := ExistingImage(form);
    if upload.Some? {
      imageUrl := Some(ImagePath(upload.value, cwd));
    }
    var product := ProductFromForm(form, imageUrl, ActiveFlag(form.isActive));
    if id in shop.products {
      shop.SetProduct(id, product);
    }
    return true;
  }

  /** POST /admin/products/:id/delete: clears the active flag of product
      `id` and nothing else; the row itself stays. */
  method SoftDelete(shop: Shop, id: ProductId)
    requires shop.Valid()
    modifies shop
    ensures shop.Valid()
    ensures shop.products.Keys == old(shop.products.Keys)
    ensures id in old(shop.products) ==> shop.products == old(shop.products)[id := old(shop.products)[id].(isActive := false)]
    ensures id !in old(shop.products) ==> unchanged(shop)
    ensures shop.nextProductId == old(shop.nextProductId)
      && shop.carts == old(shop.carts) && shop.orders == old(shop.orders)
      && shop.orderItems == old(shop.orderItems) && shop.nextOrderId == old(shop.nextOrderId)
  {
    if id in shop.products {
      shop.SetProduct(id, shop.products[id].(isActive := false));
    }
  }

  // ---------------------------------------------------------------------
  // GET /products/:id

  /** The public detail lookup: only an existing, active product is found;
      anything else is a 404. */
  function ActiveProduct(products: map<ProductId, Product>, id: ProductId): (r: Option<Product>)
    ensures r.Some? <==> id in products && products[id].isActive
    ensures r.Some? ==> r.value == products[id]
  {
    if id in products && products[id].isActive then Some(products[id]) else None
  }

  /** After a soft delete the product is hidden from the public lookup while
      its row, stock and price stay for the orders that refer to it. */
  lemma SoftDeletedIsHidden(products: map<ProductId, Product>, id: ProductId)
    requires id in products
    ensures var after := products[id := products[id].(isActive := false)];
      && ActiveProduct(after, id).None?
      && id in after && after[id].stock == products[id].stock && after[id].price == products[id].price
  {
  }
}
