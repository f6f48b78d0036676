/** The menu item document of backend/models/MenuItem.js, the record the
    menu page, the price editor and the menu manager work on. The
    nutrition sub-document carries no behaviour and is not modelled. */
module MenuCatalog {
  import opened Common

  datatype MenuItem = MenuItem(
    id: Id,
    name: string,
    description: string,
    price: real,
    image: string,
    category: string,
    rating: real,
    reviewCount: int,
    isAvailable: bool,
    ingredients: seq<string>,
    preparationTime: int,
    isPopular: bool,
    discount: real)

  /** A menu item built from its required fields, every other field at its
      schema default. */
  function NewMenuItem(id: Id, name: string, description: string, price: real, image: string,
                       category: string): (m: MenuItem)
    ensures m.rating == 4.5 && m.reviewCount == 0 && m.isAvailable
    ensures m.ingredients == [] && m.preparationTime == 15 && !m.isPopular && m.discount == 0.0
    ensures m.id == id && m.name == name && m.description == description && m.price == price
    ensures m.image == image && m.category == category
  {
    MenuItem(id, name, description, price, image, category, 4.5, 0, true, [], 15, false, 0.0)
  }
}
