/** The built-in category table (constants.ts). */
module Constants {
  import opened LedgerTypes
  import opened Lists

  /** `DEFAULT_CATEGORIES`: eleven categories with pairwise distinct ids. */
  function DefaultCategories(): (cs: seq<Category>)
    ensures |cs| == 11
    ensures DistinctIds(cs, CategoryId)
  {
    [
      Category("fuel", "Fuel", "\U{26FD}"),
      Category("food", "Food", "\U{1F354}"),
      Category("maintenance", "Car Maintenance", "\U{1F527}"),
      Category("toll", "Toll", "\U{D1A8}"),
      Category("recharge", "Mobile Recharge", "\U{1F4F1}"),
      Category("rent", "Room Rent", "\U{1F3E0}"),
      Category("family", "Family Cost", "\U{1F468}\U{200D}\U{1F469}\U{200D}\U{1F467}\U{200D}\U{1F466}"),
      Category("shopping", "Shopping", "\U{1F6CD}\U{FE0F}"),
      Category("health", "Health", "\U{2764}\U{FE0F}\U{200D}\U{1FA79}"),
      Category("income", "Income", "\U{1F4B0}"),
      Category("other", "Others", "...")
    ]
  }
}
