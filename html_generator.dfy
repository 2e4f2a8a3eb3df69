/**
 * `generateMenuHtml` (utils/htmlGenerator.ts): the menu document and a colour
 * theme become one HTML fragment. The method builds it as the source does,
 * appending to an accumulator inside two nested loops; `MenuHtml` states the
 * whole result, and the lemmas below say what it is made of.
 */
module HtmlGenerator {
  import opened Wrappers
  import opened Types
  import opened Text
  import opened HtmlEscape

  /** JavaScript `a || b` on strings: `b` when `a` is empty. */
  function Or(a: string, b: string): (r: string)
    ensures a != "" ==> r == a
    ensures a == "" ==> r == b
  {
    if a != "" then a else b
  }

  /** `palette?.[i]`: `undefined` (the empty option) past the end. */
  function PaletteAt(palette: seq<string>, i: nat): (r: Option<string>)
    ensures r.Some? <==> i < |palette|
  {
    if i < |palette| then Some(palette[i]) else None
  }

  const DefaultPrimary: string := "#3B82F6"
  const DefaultSecondary: string := "#1D4ED8"
  const DefaultText: string := "#1F2937"
  const DefaultDescription: string := "#4B5563"
  const BackgroundColor: string := "#FFFFFF"
  const DefaultTitle: string := "Menu du Restaurant"
  const DefaultItemName: string := "Plat sans nom"

  /** The four colour roles of the fragment. */
  datatype Theme = Theme(primary: string, secondary: string, text: string, description: string)

  /** A palette entry when it exists and is not empty, the default otherwise. */
  function RoleColor(palette: seq<string>, i: nat, default: string): (r: string)
    ensures r != ""
    ensures i < |palette| && palette[i] != "" ==> r == palette[i]
    ensures (i >= |palette| || palette[i] == "") ==> r == default
    requires default != ""
  {
    Or(PaletteAt(palette, i).GetOr(""), default)
  }

  /**
   * The colour roles: the dominant colour and palette entries 1, 2 and 3, each
   * replaced by its default when empty or missing. Palette entry 0 is unused.
   */
  function Roles(colors: ExtractedColors): (t: Theme)
    ensures t.primary != "" && t.secondary != "" && t.text != "" && t.description != ""
    ensures colors.dominant != "" ==> t.primary == colors.dominant
    ensures colors.dominant == "" ==> t.primary == DefaultPrimary
    ensures t.secondary == RoleColor(colors.palette, 1, DefaultSecondary)
    ensures t.text == RoleColor(colors.palette, 2, DefaultText)
    ensures t.description == RoleColor(colors.palette, 3, DefaultDescription)
  {
    Theme(Or(colors.dominant, DefaultPrimary),
          RoleColor(colors.palette, 1, DefaultSecondary),
          RoleColor(colors.palette, 2, DefaultText),
          RoleColor(colors.palette, 3, DefaultDescription))
  }

  /** `escapeHtml(data.restaurantName) || 'Menu du Restaurant'`. */
  function Title(name: string): string {
    Or(EscapeHtml(Some(name)), DefaultTitle)
  }

  /** `escapeHtml(item.name) || 'Plat sans nom'`. */
  function ItemName(name: string): string {
    Or(EscapeHtml(Some(name)), DefaultItemName)
  }

  // ------------------------------------------------------------- fragments
  // The markup of lines 25-53, cut where a colour or a text is inserted.

  const StyleEnd: string := ";\">"
  const ColorThenBorder: string := "; border-color: "
  const BorderThenColor: string := "; color: "

  const ContainerOpen: string :=
    "<div class=\"max-w-3xl mx-auto p-4 sm:p-6 lg:p-8 rounded-xl shadow-2xl\" style=\"background-color: " + BackgroundColor + StyleEnd
  const HeaderStart: string := "<header class=\"text-center mb-10 border-b-2 pb-6\" style=\"border-color: "
  const H1Start: string := "<h1 class=\"text-4xl font-bold tracking-tight sm:text-5xl\" style=\"color: "
  const H1End: string := "</h1>"
  const HeaderClose: string := "</header>"
  const SectionOpen: string := "<section class=\"mb-10\">"
  const H2Start: string := "<h2 class=\"text-3xl font-semibold mb-6 border-l-4 pl-3\" style=\"color: "
  const H2End: string := "</h2>"
  const ItemListOpen: string := "<div class=\"space-y-6\">"
  const ArticleOpen: string := "<article class=\"flex justify-between items-start py-3 border-b border-gray-200 last:border-b-0\">"
  const ItemTextOpen: string := "<div class=\"mr-4 flex-grow\">"
  const H3Start: string := "<h3 class=\"text-xl font-medium\" style=\"color: "
  const H3End: string := "</h3>"
  const DescriptionStart: string := "<p class=\"text-sm mt-1\" style=\"color: "
  const ParagraphEnd: string := "</p>"
  const ItemTextClose: string := "</div>"
  const PriceStart: string := "<p class=\"text-xl font-semibold whitespace-nowrap\" style=\"color: "
  const ArticleClose: string := "</article>"
  const SectionClose: string := "</div></section>"
  const FooterStart: string := "<footer class=\"mt-12 pt-6 border-t text-center text-xs\" style=\"border-color: "
  const FooterText: string := "<p>Menu généré par IA.</p>"
  const FooterClose: string := "</footer>"
  const ContainerClose: string := "</div>"

  function HeaderOpen(primary: string): string {
    HeaderStart + primary + StyleEnd
  }

  function Heading(primary: string, title: string): string {
    H1Start + primary + StyleEnd + title + H1End
  }

  function CategoryHeading(secondary: string, name: string): string {
    H2Start + secondary + ColorThenBorder + secondary + StyleEnd + EscapeHtml(Some(name)) + H2End
  }

  function ItemHeading(textColor: string, name: string): string {
    H3Start + textColor + StyleEnd + ItemName(name) + H3End
  }

  function DescriptionParagraph(color: string, description: string): string {
    DescriptionStart + color + StyleEnd + EscapeHtml(Some(description)) + ParagraphEnd
  }

  function PriceParagraph(primary: string, price: string): string {
    PriceStart + primary + StyleEnd + Or(EscapeHtml(Some(price)), "") + ParagraphEnd
  }

  function FooterOpen(primary: string, description: string): string {
    FooterStart + primary + BorderThenColor + description + StyleEnd
  }

  // --------------------------------------------------------- specification
  // Each function below appends to an accumulator `acc`, as the source appends
  // to `html`, in the same order.

  /** `if (item.description)`: the description is present and not empty. */
  predicate ShowsDescription(item: MenuItem) {
    item.description.Some? && item.description.value != ""
  }

  /** `acc` followed by the article of one item (lines 36-44). */
  function Article(acc: string, item: MenuItem, theme: Theme): string {
    var heading := acc + ArticleOpen + ItemTextOpen + ItemHeading(theme.text, item.name);
    var described :=
      if ShowsDescription(item) then heading + DescriptionParagraph(theme.description, item.description.value)
      else heading;
    described + ItemTextClose + PriceParagraph(theme.primary, item.price) + ArticleClose
  }

  /** `acc` followed by the articles of `items`, in order. */
  function Articles(acc: string, items: seq<MenuItem>, theme: Theme): string
    decreases |items|
  {
    if items == [] then acc
    else Articles(Article(acc, items[0], theme), items[1..], theme)
  }

  /** The condition of line 31: a category is shown when it has a name and at least one item. */
  predicate ShowsCategory(c: MenuCategory) {
    c.categoryName != "" && |c.items| > 0
  }

  /** `acc` followed by the opening of a category's section, up to its item list. */
  function SectionHead(acc: string, c: MenuCategory, theme: Theme): string {
    acc + SectionOpen + CategoryHeading(theme.secondary, c.categoryName) + ItemListOpen
  }

  /** `acc` followed by the section of one category, or `acc` itself when the category is not shown. */
  function Section(acc: string, c: MenuCategory, theme: Theme): string {
    if ShowsCategory(c) then Articles(SectionHead(acc, c, theme), c.items, theme) + SectionClose else acc
  }

  /** `acc` followed by the sections of `cats`, in order. */
  function Sections(acc: string, cats: seq<MenuCategory>, theme: Theme): string
    decreases |cats|
  {
    if cats == [] then acc
    else Sections(Section(acc, cats[0], theme), cats[1..], theme)
  }

  /** The container's opening and the header (lines 25-28). */
  function Header(title: string, theme: Theme): string {
    ContainerOpen + HeaderOpen(theme.primary) + Heading(theme.primary, title) + HeaderClose
  }

  /** `acc` followed by the footer and the container's end (lines 50-53). */
  function Footer(acc: string, theme: Theme): string {
    acc + FooterOpen(theme.primary, theme.description) + FooterText + FooterClose + ContainerClose
  }

  /** The whole fragment for a document and a colour theme. */
  function MenuHtml(data: MenuData, colors: ExtractedColors): string {
    var theme := Roles(colors);
    Footer(Sections(Header(Title(data.restaurantName), theme), data.categories, theme), theme)
  }

  // --------------------------------------------------------------- methods

  /** `generateMenuHtml(data, colors)`: the header, one section per category, the footer. */
  method GenerateMenuHtml(data: MenuData, colors: ExtractedColors) returns (html: string)
    ensures html == MenuHtml(data, colors)
  {
    var theme := Roles(colors);
    var primaryColor, secondaryColor := theme.primary, theme.secondary;
    var textColor, itemDescriptionColor := theme.text, theme.description;

    html := ContainerOpen;
    html := html + HeaderOpen(primaryColor);
    html := html + Heading(primaryColor, Title(data.restaurantName));
    html := html + HeaderClose;
    ghost var header := html;

    var i := 0;
    while i < |data.categories|
      invariant 0 <= i <= |data.categories|
      invariant Sections(html, data.categories[i..], theme) == Sections(header, data.categories, theme)
    {
      html := AppendSection(html, data.categories[i], theme);
      i := i + 1;
    }

    html := html + FooterOpen(primaryColor, itemDescriptionColor);
    html := html + FooterText;
    html := html + FooterClose;
    html := html + ContainerClose;
  }

  /** One iteration of the loop over categories (lines 30-48). */
  method AppendSection(html: string, category: MenuCategory, theme: Theme) returns (out: string)
    ensures out == Section(html, category, theme)
  {
    out := html;
    if category.categoryName != "" && |category.items| > 0 {
      out := out + SectionOpen;
      out := out + CategoryHeading(theme.secondary, category.categoryName);
      out := out + ItemListOpen;
      out := AppendArticles(out, category.items, theme);
      out := out + SectionClose;
    }
  }

  /** The loop over a category's items (lines 35-45). */
  method AppendArticles(html: string, items: seq<MenuItem>, theme: Theme) returns (out: string)
    ensures out == Articles(html, items, theme)
  {
    out := html;
    var j := 0;
    while j < |items|
      invariant 0 <= j <= |items|
      invariant Articles(out, items[j..], theme) == Articles(html, items, theme)
    {
      out := AppendArticle(out, items[j], theme);
      j := j + 1;
    }
  }

  /** One iteration of the loop over a category's items (lines 36-44). */
  method AppendArticle(html: string, item: MenuItem, theme: Theme) returns (out: string)
    ensures out == Article(html, item, theme)
  {
    out := html + ArticleOpen;
    out := out + ItemTextOpen;
    out := out + ItemHeading(theme.text, item.name);
    if item.description.Some? && item.description.value != "" {
      out := out + DescriptionParagraph(theme.description, item.description.value);
    }
    out := out + ItemTextClose;
    out := out + PriceParagraph(theme.primary, item.price);
    out := out + ArticleClose;
  }

  // ---------------------------------------------------------------- lemmas

  /** `p` is a prefix of `p + x + y` when it is one of `p + x`. */
  lemma PrefixGrows(s: string, p: string, x: string)
    requires StartsWith(s, p)
    ensures StartsWith(s + x, p)
  {
    assert (s + x)[..|p|] == s[..|p|];
  }

  lemma PrefixOfSelf(s: string)
    ensures StartsWith(s, s)
  {
    assert s[..|s|] == s;
  }

  /** An article only appends to what is already there. */
  lemma ArticleExtends(acc: string, item: MenuItem, theme: Theme)
    ensures StartsWith(Article(acc, item, theme), acc)
    ensures |Article(acc, item, theme)| > |acc|
  {
    PrefixOfSelf(acc);
    var h := acc + ArticleOpen + ItemTextOpen + ItemHeading(theme.text, item.name);
    PrefixGrows(acc, acc, ArticleOpen);
    PrefixGrows(acc + ArticleOpen, acc, ItemTextOpen);
    PrefixGrows(acc + ArticleOpen + ItemTextOpen, acc, ItemHeading(theme.text, item.name));
    var d := if ShowsDescription(item) then h + DescriptionParagraph(theme.description, item.description.value) else h;
    if ShowsDescription(item) {
      PrefixGrows(h, acc, DescriptionParagraph(theme.description, item.description.value));
    }
    PrefixGrows(d, acc, ItemTextClose);
    PrefixGrows(d + ItemTextClose, acc, PriceParagraph(theme.primary, item.price));
    PrefixGrows(d + ItemTextClose + PriceParagraph(theme.primary, item.price), acc, ArticleClose);
  }

  /** The articles only append to what is already there. */
  lemma {:induction false} ArticlesExtend(acc: string, items: seq<MenuItem>, theme: Theme)
    ensures StartsWith(Articles(acc, items, theme), acc)
    ensures |Articles(acc, items, theme)| >= |acc| + |items|
    decreases |items|
  {
    if items == [] {
      PrefixOfSelf(acc);
    } else {
      var next := Article(acc, items[0], theme);
      ArticleExtends(acc, items[0], theme);
      ArticlesExtend(next, items[1..], theme);
      PrefixTransitive(Articles(acc, items, theme), next, acc);
    }
  }

  lemma PrefixTransitive(s: string, p: string, q: string)
    requires StartsWith(s, p) && StartsWith(p, q)
    ensures StartsWith(s, q)
  {
    assert s[..|q|] == s[..|p|][..|q|];
  }

  /**
   * A category's section is emitted exactly when the category has a name and
   * at least one item: then it is appended after the text so far, opening with
   * the section head and closing the section; otherwise nothing is appended.
   */
  lemma SectionRule(acc: string, c: MenuCategory, theme: Theme)
    ensures !ShowsCategory(c) ==> Section(acc, c, theme) == acc
    ensures ShowsCategory(c) ==> |Section(acc, c, theme)| > |acc|
    ensures ShowsCategory(c) ==> StartsWith(Section(acc, c, theme), SectionHead(acc, c, theme))
    ensures ShowsCategory(c) ==> EndsWith(Section(acc, c, theme), SectionClose)
    ensures StartsWith(Section(acc, c, theme), acc)
  {
    if ShowsCategory(c) {
      var head := SectionHead(acc, c, theme);
      var body := Articles(head, c.items, theme);
      ArticlesExtend(head, c.items, theme);
      PrefixGrows(body, head, SectionClose);
      var r := body + SectionClose;
      assert r[|r| - |SectionClose|..] == SectionClose;
      PrefixOfSelf(acc);
      PrefixGrows(acc, acc, SectionOpen);
      PrefixGrows(acc + SectionOpen, acc, CategoryHeading(theme.secondary, c.categoryName));
      PrefixGrows(acc + SectionOpen + CategoryHeading(theme.secondary, c.categoryName), acc, ItemListOpen);
      PrefixTransitive(r, head, acc);
    } else {
      PrefixOfSelf(acc);
    }
  }

  /** Appending the sections of `a + b` is appending those of `a`, then those of `b`. */
  lemma {:induction false} SectionsConcat(acc: string, a: seq<MenuCategory>, b: seq<MenuCategory>, theme: Theme)
    ensures Sections(acc, a + b, theme) == Sections(Sections(acc, a, theme), b, theme)
    decreases |a|
  {
    if a == [] {
      assert a + b == b;
    } else {
      assert (a + b)[0] == a[0];
      assert (a + b)[1..] == a[1..] + b;
      SectionsConcat(Section(acc, a[0], theme), a[1..], b, theme);
    }
  }

  /** Appending the articles of `a + b` is appending those of `a`, then those of `b`. */
  lemma {:induction false} ArticlesConcat(acc: string, a: seq<MenuItem>, b: seq<MenuItem>, theme: Theme)
    ensures Articles(acc, a + b, theme) == Articles(Articles(acc, a, theme), b, theme)
    decreases |a|
  {
    if a == [] {
      assert a + b == b;
    } else {
      assert (a + b)[0] == a[0];
      assert (a + b)[1..] == a[1..] + b;
      ArticlesConcat(Article(acc, a[0], theme), a[1..], b, theme);
    }
  }

  lemma SectionsOne(acc: string, c: MenuCategory, theme: Theme)
    ensures Sections(acc, [c], theme) == Section(acc, c, theme)
  {
    assert [c][1..] == [];
  }

  lemma ArticlesOne(acc: string, item: MenuItem, theme: Theme)
    ensures Articles(acc, [item], theme) == Article(acc, item, theme)
  {
    assert [item][1..] == [];
  }

  /**
   * The sections appear in input order: the `k`-th category's section is
   * appended after the sections of the categories before it and before those
   * of the categories after it.
   */
  lemma SectionPosition(acc: string, cats: seq<MenuCategory>, k: nat, theme: Theme)
    requires k < |cats|
    ensures Sections(acc, cats, theme)
            == Sections(Section(Sections(acc, cats[..k], theme), cats[k], theme), cats[k + 1..], theme)
  {
    assert cats == cats[..k] + [cats[k]] + cats[k + 1..];
    SectionsConcat(acc, cats[..k] + [cats[k]], cats[k + 1..], theme);
    SectionsConcat(acc, cats[..k], [cats[k]], theme);
    SectionsOne(Sections(acc, cats[..k], theme), cats[k], theme);
  }

  /** Within a section the articles appear in input order, in the same way. */
  lemma ArticlePosition(acc: string, items: seq<MenuItem>, k: nat, theme: Theme)
    requires k < |items|
    ensures Articles(acc, items, theme)
            == Articles(Article(Articles(acc, items[..k], theme), items[k], theme), items[k + 1..], theme)
  {
    assert items == items[..k] + [items[k]] + items[k + 1..];
    ArticlesConcat(acc, items[..k] + [items[k]], items[k + 1..], theme);
    ArticlesConcat(acc, items[..k], [items[k]], theme);
    ArticlesOne(Articles(acc, items[..k], theme), items[k], theme);
  }

  /** The categories that are shown, in their order. */
  function Shown(cats: seq<MenuCategory>): (r: seq<MenuCategory>)
    ensures |r| <= |cats|
    ensures forall k :: 0 <= k < |r| ==> ShowsCategory(r[k]) && r[k] in cats
  {
    if cats == [] then []
    else (if ShowsCategory(cats[0]) then [cats[0]] else []) + Shown(cats[1..])
  }

  /** Categories that are not shown contribute nothing: the output is that of the shown categories alone. */
  lemma {:induction false} OnlyShownCategories(acc: string, cats: seq<MenuCategory>, theme: Theme)
    ensures Sections(acc, cats, theme) == Sections(acc, Shown(cats), theme)
    decreases |cats|
  {
    if cats != [] {
      var next := Section(acc, cats[0], theme);
      OnlyShownCategories(next, cats[1..], theme);
      if ShowsCategory(cats[0]) {
        var shown := [cats[0]] + Shown(cats[1..]);
        assert shown[0] == cats[0] && shown[1..] == Shown(cats[1..]);
      } else {
        SectionRule(acc, cats[0], theme);
        assert Shown(cats) == Shown(cats[1..]);
      }
    }
  }

  /** `t` ends `s + t`. */
  lemma SuffixAppended(s: string, t: string)
    ensures EndsWith(s + t, t)
  {
    assert (s + t)[|s|..] == t;
  }

  /**
   * The fragment always opens with the container and the header and always
   * closes with the container's end; without categories it is the header
   * followed directly by the footer.
   */
  lemma Frame(data: MenuData, colors: ExtractedColors)
    ensures StartsWith(MenuHtml(data, colors), Header(Title(data.restaurantName), Roles(colors)))
    ensures EndsWith(MenuHtml(data, colors), ContainerClose)
    ensures data.categories == [] ==>
              MenuHtml(data, colors) == Footer(Header(Title(data.restaurantName), Roles(colors)), Roles(colors))
  {
    var theme := Roles(colors);
    var h := Header(Title(data.restaurantName), theme);
    var body := Sections(h, data.categories, theme);
    SectionsExtend(h, data.categories, theme);
    var f1, f2 := FooterOpen(theme.primary, theme.description), FooterText;
    PrefixGrows(body, h, f1);
    PrefixGrows(body + f1, h, f2);
    PrefixGrows(body + f1 + f2, h, FooterClose);
    PrefixGrows(body + f1 + f2 + FooterClose, h, ContainerClose);
    SuffixAppended(body + f1 + f2 + FooterClose, ContainerClose);
  }

  /** The sections only append to what is already there. */
  lemma {:induction false} SectionsExtend(acc: string, cats: seq<MenuCategory>, theme: Theme)
    ensures StartsWith(Sections(acc, cats, theme), acc)
    decreases |cats|
  {
    if cats == [] {
      PrefixOfSelf(acc);
    } else {
      var next := Section(acc, cats[0], theme);
      SectionRule(acc, cats[0], theme);
      SectionsExtend(next, cats[1..], theme);
      PrefixTransitive(Sections(acc, cats, theme), next, acc);
    }
  }

  /**
   * The description paragraph is emitted exactly when the description is
   * present and not empty: otherwise the article is that of the same item
   * without a description, and otherwise it is longer by the paragraph.
   */
  lemma DescriptionRule(acc: string, item: MenuItem, theme: Theme)
    ensures !ShowsDescription(item) ==> Article(acc, item, theme) == Article(acc, item.(description := None), theme)
    ensures ShowsDescription(item) ==>
              |Article(acc, item, theme)| == |Article(acc, item.(description := None), theme)|
                + |DescriptionParagraph(theme.description, item.description.value)|
  {
  }

  /**
   * A shown description is one paragraph placed between the item's heading and
   * the rest of its article: removing it gives the article without description.
   */
  lemma DescriptionPlacement(acc: string, item: MenuItem, theme: Theme)
    requires ShowsDescription(item)
    ensures Article(acc, item.(description := None), theme) == ArticleHead(acc, item, theme) + ArticleTail(item, theme)
    ensures Article(acc, item, theme)
            == ArticleHead(acc, item, theme) + DescriptionParagraph(theme.description, item.description.value)
               + ArticleTail(item, theme)
  {
    var bare := item.(description := None);
    var pre := ArticleHead(acc, item, theme);
    var paragraph := DescriptionParagraph(theme.description, item.description.value);
    var price := PriceParagraph(theme.primary, item.price);
    assert ArticleHead(acc, bare, theme) == pre && PriceParagraph(theme.primary, bare.price) == price;
    ArticleUnfolds(acc, item, theme);
    ArticleUnfolds(acc, bare, theme);
    RegroupTail(pre, ItemTextClose, price, ArticleClose);
    RegroupTail(pre + paragraph, ItemTextClose, price, ArticleClose);
  }

  /** `acc` followed by the start of an item's article, up to its heading. */
  function ArticleHead(acc: string, item: MenuItem, theme: Theme): string {
    acc + ArticleOpen + ItemTextOpen + ItemHeading(theme.text, item.name)
  }

  /** The end of an item's article, from the close of its text block. */
  function ArticleTail(item: MenuItem, theme: Theme): string {
    ItemTextClose + PriceParagraph(theme.primary, item.price) + ArticleClose
  }

  lemma ArticleUnfolds(acc: string, item: MenuItem, theme: Theme)
    ensures ShowsDescription(item) ==>
              Article(acc, item, theme)
              == ArticleHead(acc, item, theme) + DescriptionParagraph(theme.description, item.description.value)
                 + ItemTextClose + PriceParagraph(theme.primary, item.price) + ArticleClose
    ensures !ShowsDescription(item) ==>
              Article(acc, item, theme)
              == ArticleHead(acc, item, theme) + ItemTextClose + PriceParagraph(theme.primary, item.price) + ArticleClose
  {
  }

  /** Appending three pieces one by one is appending their concatenation. */
  lemma RegroupTail(a: string, x: string, y: string, z: string)
    ensures a + x + y + z == a + (x + y + z)
  {
  }

  lemma DefaultTitleIsSafe()
    ensures Safe(DefaultTitle)
  {
    PlainIsSafe(DefaultTitle);
  }

  lemma DefaultItemNameIsSafe()
    ensures Safe(DefaultItemName)
  {
    PlainIsSafe(DefaultItemName);
  }

  /**
   * The title falls back to the default exactly when the restaurant name is
   * empty; otherwise it is the escaped name, which decodes back to the name.
   * Either way it shows no raw special character.
   */
  lemma TitleRule(name: string)
    ensures name == "" ==> Title(name) == DefaultTitle
    ensures name != "" ==> Title(name) == EscapeHtml(Some(name)) && Unescape(Title(name)) == name
    ensures Safe(Title(name))
  {
    EscapeEmpty(name);
    EscapeHtmlSafeAndReversible(name);
    DefaultTitleIsSafe();
  }

  /** The same rule for an item heading, with its own default. */
  lemma ItemNameRule(name: string)
    ensures name == "" ==> ItemName(name) == DefaultItemName
    ensures name != "" ==> ItemName(name) == EscapeHtml(Some(name)) && Unescape(ItemName(name)) == name
    ensures Safe(ItemName(name))
  {
    EscapeEmpty(name);
    EscapeHtmlSafeAndReversible(name);
    DefaultItemNameIsSafe();
  }
}
