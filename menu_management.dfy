/** The menu manager of frontend/src/components/admin/MenuManagement.js:
    the form state, the item data a submit sends, the ingredient list
    parsed from and formatted to a comma-separated string, and the image
    carousel index. Requests to the menu routes and the reading of image
    files are not modelled; a preview is the data URL the reader produced. */
module MenuManagement {
  import opened Common
  import opened Text
  import opened MenuCatalog

  const PlaceholderImage := "https://source.unsplash.com/400x300/?waffle,dessert"
  const DefaultCategory := "Classic"

  /** The category choices of the form. */
  const Categories: seq<string> := ["Classic", "Sweet", "Fruit", "Premium", "Savory", "Dessert", "Specialty"]

  /** The form fields; `price` and `ingredients` are the text typed. */
  datatype FormData = FormData(name: string, description: string, price: string, category: string,
                               ingredients: string, preparationTime: int, isPopular: bool)

  /** The component state. An image slot holds the chosen file's name, a
      preview slot the data URL shown for it. */
  datatype Manager = Manager(formData: FormData, editingItem: Option<MenuItem>, showAddForm: bool,
                             images: seq<Option<string>>, imagePreview: seq<Option<string>>,
                             currentImageIndex: int)

  const EmptyForm := FormData("", "", "", DefaultCategory, "", 15, false)

  /** The state when the component mounts. */
  const Initial := Manager(EmptyForm, None, false, [None, None], [None, None], 0)

  /** A JavaScript truthiness test on an optional string: null and `''`
      are falsy. */
  predicate Present(o: Option<string>) {
    o.Some? && o.value != ""
  }

  /** `formData.ingredients.split(',').map(i => i.trim())`. */
  function ParseIngredients(s: string): (r: seq<string>)
    ensures |r| == Count(s, ',') + 1
    ensures forall k :: 0 <= k < |r| ==> NoSurroundingWhitespace(r[k]) && ',' !in r[k]
  {
    var parts := Split(s, ',');
    seq(|parts|, (k: int) requires 0 <= k < |parts| => Trim(parts[k]))
  }

  /** `item.ingredients?.join(', ') || ''`. */
  function FormatIngredients(xs: Option<seq<string>>): (r: string)
    ensures xs.None? || xs.value == [] ==> r == ""
  {
    match xs
    case None => ""
    case Some(list) => Join(list, ", ")
  }

  /** Joining with ", " and splitting at ',' gives back the first entry and
      the others each behind one space. */
  lemma {:induction false} SplitJoined(xs: seq<string>)
    requires |xs| > 0
    requires forall k :: 0 <= k < |xs| ==> ',' !in xs[k]
    ensures |Split(Join(xs, ", "), ',')| == |xs|
    ensures Split(Join(xs, ", "), ',')[0] == xs[0]
    ensures forall k :: 1 <= k < |xs| ==> Split(Join(xs, ", "), ',')[k] == " " + xs[k]
  {
    if |xs| == 1 {
      SplitWithoutSeparator(xs[0], ',');
    } else {
      var rest := Join(xs[1..], ", ");
      assert Join(xs, ", ") == xs[0] + [','] + (" " + rest);
      SplitAtFirstSeparator(xs[0], " " + rest, ',');
      SplitJoined(xs[1..]);
      var tail := Split(rest, ',');
      assert (" " + rest)[1..] == rest;
      var spaced := Split(" " + rest, ',');
      assert spaced == [[' '] + tail[0]] + tail[1..];
      assert Split(Join(xs, ", "), ',') == [xs[0]] + spaced;
      forall k | 1 <= k < |xs| ensures Split(Join(xs, ", "), ',')[k] == " " + xs[k] {
        if k > 1 {
          assert spaced[k - 1] == tail[k - 1];
          assert xs[1..][k - 1] == xs[k];
        }
      }
    }
  }

  /** A non-empty list of trimmed, comma-free entries survives formatting
      and parsing. */
  lemma ParseFormatRoundTrip(xs: seq<string>)
    requires |xs| > 0
    requires forall k :: 0 <= k < |xs| ==> ',' !in xs[k] && NoSurroundingWhitespace(xs[k])
    ensures ParseIngredients(FormatIngredients(Some(xs))) == xs
  {
    var joined := Join(xs, ", ");
    assert FormatIngredients(Some(xs)) == joined;
    SplitJoined(xs);
    var r := ParseIngredients(joined);
    forall k | 0 <= k < |xs| ensures r[k] == xs[k] {
      ParsedEntry(joined, k);
      if k == 0 {
        TrimOfTrimmed(xs[0]);
      } else {
        TrimLeadingSpace(xs[k]);
      }
    }
  }

  /** The k-th parsed entry is the k-th piece trimmed. */
  lemma ParsedEntry(s: string, k: nat)
    requires k < |Split(s, ',')|
    ensures k < |ParseIngredients(s)| && ParseIngredients(s)[k] == Trim(Split(s, ',')[k])
  {
  }

  /** An empty or missing list formats to "" and "" parses to one empty
      entry, so the round trip fails there. */
  lemma EmptyListHasNoRoundTrip()
    ensures FormatIngredients(None) == "" && FormatIngredients(Some([])) == ""
    ensures ParseIngredients("") == [""]
  {
    assert Trim("") == "";
  }

  /** The object `handleSubmit` sends; `price` is the number parsed from
      the typed text. */
  datatype ItemData = ItemData(name: string, description: string, price: real, category: string,
                               ingredients: seq<string>, preparationTime: int, isPopular: bool,
                               image: string, secondaryImage: Option<string>)

  function ItemDataOf(m: Manager, price: real): (d: ItemData)
    requires |m.imagePreview| == 2
    ensures d.image == (if Present(m.imagePreview[0]) then m.imagePreview[0].value else PlaceholderImage)
    ensures d.secondaryImage.Some? <==> Present(m.imagePreview[1])
    ensures d.secondaryImage.Some? ==> d.secondaryImage == m.imagePreview[1]
    ensures d.ingredients == ParseIngredients(m.formData.ingredients) && d.price == price
    ensures d.name == m.formData.name && d.description == m.formData.description
    ensures d.category == m.formData.category && d.preparationTime == m.formData.preparationTime
    ensures d.isPopular == m.formData.isPopular
  {
    var f := m.formData;
    var image := if Present(m.imagePreview[0]) then m.imagePreview[0].value else PlaceholderImage;
    var second := if Present(m.imagePreview[1]) then m.imagePreview[1] else None;
    ItemData(f.name, f.description, price, f.category, ParseIngredients(f.ingredients),
             f.preparationTime, f.isPopular, image, second)
  }

  /** With no preview chosen the item gets the placeholder and no second
      image. */
  lemma NoPreviewUsesPlaceholder(m: Manager, price: real)
    requires m.imagePreview == [None, None]
    ensures ItemDataOf(m, price).image == PlaceholderImage
    ensures ItemDataOf(m, price).secondaryImage == None
  {
  }

  /** The reader's `onloadend`: the slot's preview and file are set, the
      other slot is kept. */
  function ImageLoaded(m: Manager, index: nat, file: string, dataUrl: string): (m': Manager)
    requires index < 2 && |m.images| == 2 && |m.imagePreview| == 2
    ensures |m'.images| == 2 && |m'.imagePreview| == 2
    ensures m'.imagePreview[index] == Some(dataUrl) && m'.images[index] == Some(file)
    ensures m'.imagePreview[1 - index] == m.imagePreview[1 - index] && m'.images[1 - index] == m.images[1 - index]
    ensures m' == m.(images := m'.images, imagePreview := m'.imagePreview)
  {
    m.(imagePreview := m.imagePreview[index := Some(dataUrl)], images := m.images[index := Some(file)])
  }

  /** `handleEdit`: the form shows the item, with `priceText` the item's
      price as JavaScript prints it, and the form opens in edit mode. */
  function Edit(m: Manager, item: MenuItem, priceText: string): (m': Manager)
    ensures m'.editingItem == Some(item) && m'.showAddForm
    ensures m'.formData.ingredients == FormatIngredients(Some(item.ingredients))
    ensures m'.formData.name == item.name && m'.formData.description == item.description
    ensures m'.formData.category == item.category && m'.formData.price == priceText
    ensures m'.formData.preparationTime == item.preparationTime && m'.formData.isPopular == item.isPopular
    ensures m'.images == m.images && m'.imagePreview == m.imagePreview
    ensures m'.currentImageIndex == m.currentImageIndex
  {
    m.(editingItem := Some(item),
       formData := FormData(item.name, item.description, priceText, item.category,
                            FormatIngredients(Some(item.ingredients)), item.preparationTime, item.isPopular),
       showAddForm := true)
  }

  /** Editing an item and submitting unchanged sends its ingredient list
      back as it was, when that list is non-empty and its entries are
      trimmed and comma-free. */
  lemma EditThenSubmitKeepsIngredients(m: Manager, item: MenuItem, priceText: string, price: real)
    requires |m.imagePreview| == 2
    requires |item.ingredients| > 0
    requires forall k :: 0 <= k < |item.ingredients| ==>
               ',' !in item.ingredients[k] && NoSurroundingWhitespace(item.ingredients[k])
    ensures ItemDataOf(Edit(m, item, priceText), price).ingredients == item.ingredients
  {
    ParseFormatRoundTrip(item.ingredients);
  }

  /** `resetForm`. */
  function ResetForm(m: Manager): (m': Manager)
    ensures m'.editingItem.None? && !m'.showAddForm && m'.currentImageIndex == 0
    ensures m'.formData.category == DefaultCategory && m'.formData.preparationTime == 15
  {
    Manager(FormData("", "", "", "Classic", "", 15, false), None, false, [None, None], [None, None], 0)
  }

  /** A reset restores exactly the state the component mounts with,
      whatever came before. */
  lemma ResetRestoresInitial(m: Manager)
    ensures ResetForm(m) == Initial
  {
  }

  /** `nextImage` shows the second image. */
  function NextImage(m: Manager): (m': Manager)
    ensures m'.currentImageIndex == 1 && m' == m.(currentImageIndex := 1)
  {
    m.(currentImageIndex := 1)
  }

  /** `prevImage` shows the first image. */
  function PrevImage(m: Manager): (m': Manager)
    ensures m'.currentImageIndex == 0 && m' == m.(currentImageIndex := 0)
  {
    m.(currentImageIndex := 0)
  }

  /** Both carousel moves are idempotent, and a move back undoes a move
      forward from the first image. */
  lemma ImageMovesIdempotent(m: Manager)
    ensures NextImage(NextImage(m)) == NextImage(m)
    ensures PrevImage(PrevImage(m)) == PrevImage(m)
    ensures m.currentImageIndex == 0 ==> PrevImage(NextImage(m)) == m
  {
  }
}
