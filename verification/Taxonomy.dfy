/** The product categories and the subcategories each of them allows. */
module Taxonomy {

  const CATEGORY_TO_SUBCATEGORIES: map<string, seq<string>> := map[
    "realEstate" := [
      "all", "apartmentForRent", "apartmentForSale", "houses", "lands",
      "commercialRealEstateForRent", "commercialRealEstateForSale", "other"],
    "vehicles" := [
      "all", "carsForSale", "carsForRent", "sparePartsAndAccessories", "motorCycles", "bicycles",
      "trucksAndHeavyVehicles"],
    "electronics" := [
      "all", "smartphones", "tablets", "laptopsAndComputers", "accessories", "speakersAndHeadphones",
      "cameras", "smartWatchesAndWearables", "monitorsAndTVs", "other"],
    "homeAndDecor" := [
      "all", "furniture", "officeFurniture", "kitchenAndDining", "beddingAndBath", "homeDecor", "homeTools",
      "lighting", "other"],
    "clothingAndFashion" := [
      "all", "menClothing", "womenClothing", "kidsClothing", "shoes", "menAccessories",
      "womenAccessoriesAndMakeup", "jewelryAndWatches", "other"],
    "services" := [
      "all", "maintenanceAndRepairs", "transportationAndMoving", "personalServices", "carsServices",
      "homeServices", "lessonsAndTutoring", "other"]
  ]

  predicate IsValidCategory(category: string) {
    category in CATEGORY_TO_SUBCATEGORIES
  }

  predicate IsValidSubcategory(category: string, subcategory: string) {
    IsValidCategory(category) && subcategory in CATEGORY_TO_SUBCATEGORIES[category]
  }

  predicate IsAllowedProductSubcategory(category: string, subcategory: string) {
    IsValidSubcategory(category, subcategory) && subcategory != "all"
  }

  /** The six categories. */
  lemma Categories(category: string)
    ensures IsValidCategory(category) <==>
            category in {"realEstate", "vehicles", "electronics", "homeAndDecor", "clothingAndFashion", "services"}
  {
  }

  /** Every category has the subcategory "all", which a search may name and a product may not. */
  lemma AllIsListed(category: string)
    requires IsValidCategory(category)
    ensures "all" in CATEGORY_TO_SUBCATEGORIES[category]
    ensures IsValidSubcategory(category, "all") && !IsAllowedProductSubcategory(category, "all")
  {
    assert CATEGORY_TO_SUBCATEGORIES[category][0] == "all";
  }
}
