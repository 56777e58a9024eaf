/**
 * The products pages of both clients (frontend/src/pages/Products.jsx and
 * src/pages/Products.jsx): the export that joins cells with commas and no
 * quoting, the owner-or-Admin rule for the edit and delete buttons, the
 * toolbar, and the guard of the add button.
 */
module ProductPages {
  import opened Wrappers
  import opened Text
  import opened Decimal
  import opened Catalog
  import ApiAuth
  import ApiCatalog
  import Csv

  const ExportHeader: seq<string> := ["Name", "Price", "Colors", "Tags", "Category"]

  /** The header cells joined by `","`. */
  const HeaderLine: string := "Name,Price,Colors,Tags,Category"

  lemma HeaderLineJoined()
    ensures Join(ExportHeader, ",") == HeaderLine
  {
    JoinFive("Name", "Price", "Colors", "Tags", "Category", ",");
  }

  /** The header line splits back into the five header cells. */
  lemma HeaderSplits()
    ensures Split(HeaderLine, ',') == ExportHeader
  {
    HeaderLineJoined();
    SplitJoin(ExportHeader, ',');
  }

  /** One product's cells: name, price, colours and tags joined by `", "`, category name. */
  function ExportCells(p: Product): (r: seq<string>)
    ensures |r| == |ExportHeader|
  {
    [p.name, IntToString(p.price), Join(p.colors, ", "), Join(p.tags, ", "), p.categoryName]
  }

  /** The header, then one row per product in order, each row's cells joined by `","`. */
  function ExportLines(products: seq<Product>): (lines: seq<string>)
    ensures |lines| == |products| + 1
    ensures lines[0] == "Name,Price,Colors,Tags,Category"
    ensures forall i | 0 <= i < |products| :: lines[i + 1] == Join(ExportCells(products[i]), ",")
  {
    [HeaderLine] + seq(|products|, i requires 0 <= i < |products| => Join(ExportCells(products[i]), ","))
  }

  /** `exportCSV` as written: the lines joined by `"\n"`. */
  function ExportCsv(products: seq<Product>): (csv: string)
    ensures products == [] ==> csv == "Name,Price,Colors,Tags,Category"
  {
    Join(ExportLines(products), "\n")
  }

  /** `s.split(c)`. */
  function Split(s: string, c: char): (r: seq<string>)
    ensures |r| >= 1
  {
    if s == [] then [""]
    else if s[0] == c then [""] + Split(s[1..], c)
    else var rest := Split(s[1..], c); [[s[0]] + rest[0]] + rest[1..]
  }

  lemma {:induction false} SplitWithout(s: string, c: char, tail: string)
    requires c !in s
    ensures Split(s + tail, c) == [s + Split(tail, c)[0]] + Split(tail, c)[1..]
  {
    if s != [] {
      assert (s + tail)[1..] == s[1..] + tail;
      SplitWithout(s[1..], c, tail);
      assert [s[0]] + (s[1..] + Split(tail, c)[0]) == s + Split(tail, c)[0];
    } else {
      var r := Split(tail, c);
      assert s + tail == tail && s + r[0] == r[0];
      assert r == [r[0]] + r[1..];
    }
  }

  /** Splitting undoes joining when no part holds the separator. */
  lemma {:induction false} SplitJoin(parts: seq<string>, c: char)
    requires |parts| >= 1 && forall i | 0 <= i < |parts| :: c !in parts[i]
    ensures Split(Join(parts, [c]), c) == parts
  {
    if |parts| == 1 {
      SplitWithout(parts[0], c, "");
      assert Split("", c) == [""];
      assert parts[0] + "" == parts[0];
      assert Join(parts, [c]) == parts[0];
    } else {
      var rest := Join(parts[1..], [c]);
      SplitJoin(parts[1..], c);
      var t := [c] + rest;
      assert Join(parts, [c]) == parts[0] + t;
      SplitWithout(parts[0], c, t);
      assert t[0] == c && t[1..] == rest;
      assert Split(t, c) == [""] + Split(rest, c);
      assert parts[0] + "" == parts[0];
      assert parts == [parts[0]] + parts[1..];
    }
  }

  lemma NoCommaInNumber(i: int)
    ensures ',' !in IntToString(i) && '\n' !in IntToString(i)
  {
    if i < 0 {
      assert IntToString(i) == "-" + Digits(-i);
    }
  }

  /** A cell that holds neither separator. */
  predicate Plain(s: string) {
    ',' !in s && '\n' !in s
  }

  /** The cells of one product hold no separator: none of its texts does, and it has at most one colour and one tag. */
  predicate PlainProduct(p: Product) {
    Plain(p.name) && Plain(p.categoryName) && |p.colors| <= 1 && |p.tags| <= 1
    && (forall k | 0 <= k < |p.colors| :: Plain(p.colors[k]))
    && (forall k | 0 <= k < |p.tags| :: Plain(p.tags[k]))
  }

  lemma PlainCells(p: Product)
    requires PlainProduct(p)
    ensures forall k | 0 <= k < |ExportCells(p)| :: Plain(ExportCells(p)[k])
  {
    NoCommaInNumber(p.price);
  }

  /** A cell with a comma in it cannot be told apart from two cells. */
  lemma PlainJoin(cells: seq<string>)
    requires |cells| >= 1 && forall k | 0 <= k < |cells| :: Plain(cells[k])
    ensures '\n' !in Join(cells, ",")
  {
    if |cells| > 1 {
      PlainJoin(cells[1..]);
    }
  }

  /** A product whose cells hold no separator exports a line without line feeds that splits back into its cells. */
  lemma PlainLine(p: Product)
    requires PlainProduct(p)
    ensures Split(Join(ExportCells(p), ","), ',') == ExportCells(p)
    ensures '\n' !in Join(ExportCells(p), ",")
  {
    PlainCells(p);
    SplitJoin(ExportCells(p), ',');
    PlainJoin(ExportCells(p));
  }

  /**
   * When no product's cells hold a separator, splitting the export on line
   * feeds and each line on commas gives back the header and every product's
   * five cells.
   */
  lemma ExportReadsBack(products: seq<Product>)
    requires forall i | 0 <= i < |products| :: PlainProduct(products[i])
    ensures Split(ExportCsv(products), '\n') == ExportLines(products)
    ensures Split(ExportLines(products)[0], ',') == ExportHeader
    ensures forall i | 0 <= i < |products| :: Split(ExportLines(products)[i + 1], ',') == ExportCells(products[i])
  {
    HeaderSplits();
    forall i | 0 <= i < |products| ensures Split(ExportLines(products)[i + 1], ',') == ExportCells(products[i]) {
      PlainLine(products[i]);
    }
    LinesPlain(products);
    SplitJoin(ExportLines(products), '\n');
  }

  lemma LinesPlain(products: seq<Product>)
    requires forall i | 0 <= i < |products| :: PlainProduct(products[i])
    ensures forall k | 0 <= k < |ExportLines(products)| :: '\n' !in ExportLines(products)[k]
  {
    var lines := ExportLines(products);
    forall k | 0 <= k < |lines| ensures '\n' !in lines[k] {
      if k > 0 {
        PlainLine(products[k - 1]);
        assert lines[(k - 1) + 1] == Join(ExportCells(products[k - 1]), ",");
      }
    }
  }

  lemma JoinFive(a: string, b: string, c: string, d: string, e: string, sep: string)
    ensures Join([a, b, c, d, e], sep) == a + sep + b + sep + c + sep + d + sep + e
  {
    assert [d, e][1..] == [e];
    assert Join([d, e], sep) == d + sep + e;
    assert [c, d, e][1..] == [d, e];
    assert Join([c, d, e], sep) == c + sep + (d + sep + e);
    assert [b, c, d, e][1..] == [c, d, e];
    assert Join([b, c, d, e], sep) == b + sep + (c + sep + d + sep + e);
    assert [a, b, c, d, e][1..] == [b, c, d, e];
    assert Join([a, b, c, d, e], sep) == a + sep + (b + sep + c + sep + d + sep + e);
  }

  lemma JoinSix(a: string, b: string, c: string, d: string, e: string, f: string, sep: string)
    ensures Join([a, b, c, d, e, f], sep) == a + sep + b + sep + c + sep + d + sep + e + sep + f
  {
    assert [a, b, c, d, e, f][1..] == [b, c, d, e, f];
    JoinFive(b, c, d, e, f, sep);
  }

  /**
   * A product with two colours exports a row that reads back as six cells
   * under a header of five: the colour separator `", "` holds the cell
   * separator.
   */
  lemma TwoColoursMisalign(p: Product)
    requires Plain(p.name) && Plain(p.categoryName) && p.tags == []
    requires |p.colors| == 2 && Plain(p.colors[0]) && Plain(p.colors[1])
    ensures |Split(ExportLines([p])[1], ',')| == 6
    ensures |Split(ExportLines([p])[0], ',')| == 5
  {
    TwoColoursSixCells(p);
    HeaderSplits();
  }

  /** The row of a product with two plain colours and no tags splits into six cells. */
  lemma TwoColoursSixCells(p: Product)
    requires Plain(p.name) && Plain(p.categoryName) && p.tags == []
    requires |p.colors| == 2 && Plain(p.colors[0]) && Plain(p.colors[1])
    ensures |Split(Join(ExportCells(p), ","), ',')| == 6
  {
    NoCommaInNumber(p.price);
    var price := IntToString(p.price);
    var parts := [p.name, price, p.colors[0], " " + p.colors[1], "", p.categoryName];
    assert [p.colors[0], p.colors[1]][1..] == [p.colors[1]];
    assert p.colors == [p.colors[0], p.colors[1]];
    assert Join(p.colors, ", ") == p.colors[0] + ", " + p.colors[1];
    JoinFive(p.name, price, p.colors[0] + ", " + p.colors[1], "", p.categoryName, ",");
    JoinSix(p.name, price, p.colors[0], " " + p.colors[1], "", p.categoryName, ",");
    assert Join(ExportCells(p), ",") == Join(parts, ",");
    SplitJoin(parts, ',');
  }

  /** The same rows written in the quoted form of RFC 4180 section 2. */
  function QuotedExportCsv(products: seq<Product>): (csv: string)
    ensures Csv.Parse(csv) == Some([ExportHeader] + seq(|products|, i requires 0 <= i < |products| => ExportCells(products[i])))
  {
    var rows := [ExportHeader] + seq(|products|, i requires 0 <= i < |products| => ExportCells(products[i]));
    Csv.DocumentRoundTrip(rows);
    Csv.Document(rows)
  }

  /** The edit and delete buttons: shown for the product's owner or an Admin. */
  predicate CanEdit(p: Product, currentUserId: Option<int>, role: Option<string>) {
    (p.userId.Some? && currentUserId.Some? && p.userId.value == currentUserId.value) || role == Some("Admin")
  }

  /** A backend row as the cache holds it. */
  function Cached(row: ApiCatalog.ProductRow, categoryName: string): (p: Product)
    ensures p.id == row.id && p.userId == Some(row.userId) && p.categoryId == row.categoryId
  {
    Product(row.id, row.name, row.price, row.colors, row.tags, row.categoryId, categoryName, Some(row.userId))
  }

  /** The page offers edit and delete exactly when the backend would allow them for the logged-in user. */
  lemma CanEditMatchesBackend(row: ApiCatalog.ProductRow, categoryName: string, user: ApiAuth.User)
    ensures CanEdit(Cached(row, categoryName), Some(user.id), Some(user.role)) <==> !ApiCatalog.Forbidden(row, user)
  {
  }

  datatype Toolbar = Toolbar(exportShown: bool, addShown: bool)

  /** Export is shown only to Admin; add only when the current user id is truthy. */
  function ToolbarFor(role: Option<string>, currentUserId: Option<int>): (t: Toolbar)
    ensures t.exportShown <==> role == Some("Admin")
    ensures t.addShown <==> currentUserId.Some? && currentUserId.value != 0
  {
    Toolbar(role == Some("Admin"), currentUserId.Some? && currentUserId.value != 0)
  }

  /** `categories.find(c => c.name === name)`, as a position. */
  function FindByName(categories: seq<Category>, name: string): (r: Option<nat>)
    ensures r.Some? ==> r.value < |categories| && categories[r.value].name == name
    ensures r.None? <==> forall j | 0 <= j < |categories| :: categories[j].name != name
  {
    if categories == [] then None
    else if categories[0].name == name then Some(0)
    else match FindByName(categories[1..], name)
      case None => None
      case Some(k) => Some(k + 1)
  }

  class ProductsPage {
    var showModal: bool
    var selectedCategory: string
    var editing: Option<Product>

    constructor ()
      ensures !showModal && selectedCategory == "" && editing.None?
    {
      showModal := false;
      selectedCategory := "";
      editing := None;
    }

    /**
     * `handleAddProduct`: refused while there are no categories; otherwise
     * opens the form for a new product in the first category.
     */
    method HandleAddProduct(categories: seq<Category>) returns (shown: bool)
      modifies this
      ensures shown <==> |categories| > 0
      ensures !shown ==> showModal == old(showModal) && selectedCategory == old(selectedCategory) && editing == old(editing)
      ensures shown ==> showModal && editing.None? && selectedCategory == categories[0].name
      ensures shown ==> FindByName(categories, selectedCategory) == Some(0)
    {
      if |categories| == 0 {
        return false;
      }
      selectedCategory := categories[0].name;
      editing := None;
      showModal := true;
      shown := true;
    }

    /**
     * `handleEditProduct`: opens the form on the product, with the category
     * looked up by the product's cached category name.
     */
    method HandleEditProduct(product: Product)
      modifies this
      ensures showModal && editing == Some(product) && selectedCategory == product.categoryName
    {
      selectedCategory := product.categoryName;
      editing := Some(product);
      showModal := true;
    }
  }
}
