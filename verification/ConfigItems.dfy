/** The categories of configuration items, and items as the configuration files hold them. */
module ConfigItems {

  /** The named categories of pingap-config/src/common.rs; `Other` is any further text. */
  datatype Category = Server | Location | Upstream | Plugin | Certificate | Storage | Basic | Other

  /** A named item of one of the six categories that hold several. */
  datatype Entry = Entry(category: Category, name: string)

  /** The lines of an item's TOML. */
  type Lines = seq<string>

  /** A configuration as text: the basic part, and every other item under its category and name. */
  datatype ConfText = ConfText(basic: Lines, items: map<Entry, Lines>) {
    predicate WellFormed() {
      forall e :: e in items ==> HoldsItems(e.category)
    }
  }

  predicate HoldsItems(c: Category) {
    c != Basic && c != Other
  }
}
