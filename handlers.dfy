/** The pure part of the page handlers that end in a WhatsApp message: the filter form's
    category lookup, the property buttons' field defaults and price digits, and the feedback
    form's submit guard. Reading the page (form fields, element text) becomes the optional
    string inputs below, None standing for a missing field or element. Opening the link is
    left to the caller: each handler returns the message whose link
    (WhatsApp.GenerateLink) it would open. */
module Handlers {
  import opened Wrappers
  import opened TextRules
  import opened WhatsApp

  /** `value || fallback` for a string read from the page: a missing value and the empty
      string both give way to the fallback. */
  function OrElse(value: Option<string>, fallback: string): string
  {
    if value.Some? && value.value != "" then value.value else fallback
  }

  // ---------------------------------------------------------------------------------------
  // Filter form

  /** An entry of CATEGORIES. */
  datatype RentalCategory = RentalCategory(id: string, title: string, icon: string)

  /** CATEGORIES. */
  const Categories: seq<RentalCategory> := [
    RentalCategory("houses", "Houses & Flats", "\U{1F3E0}"),
    RentalCategory("pg", "PG & Hostels", "\U{1F3E8}"),
    RentalCategory("coworking", "Co-working Spaces", "\U{1F4BC}"),
    RentalCategory("library", "Library / Study Seats", "\U{1F4DA}"),
    RentalCategory("commercial", "Commercial & Offices", "\U{1F3E2}")
  ]

  /** The title the filter handler uses for the catch-all choice. */
  const AllCategoriesTitle: string := "All Categories"

  /** Index of the first entry with that id, or the length when there is none. */
  function FirstWithId(categories: seq<RentalCategory>, id: string): (k: nat)
    ensures k <= |categories|
    ensures forall j :: 0 <= j < k ==> categories[j].id != id
    ensures k < |categories| ==> categories[k].id == id
  {
    if categories == [] || categories[0].id == id then 0 else 1 + FirstWithId(categories[1..], id)
  }

  /** CATEGORIES.find(c => c.id === id): the first entry with that id. */
  function FindCategory(categories: seq<RentalCategory>, id: string): Option<RentalCategory>
  {
    var k := FirstWithId(categories, id);
    if k < |categories| then Some(categories[k]) else None
  }

  /** The category name the filter handler computes from the submitted id. */
  function CategoryName(id: string): string
  {
    if id == "all" then AllCategoriesTitle
    else match FindCategory(Categories, id)
      case Some(c) => c.title
      case None => id
  }

  /** No two entries of CATEGORIES share an id, and every title is longer than 'all'. */
  lemma CategoriesWellFormed()
    ensures forall j, k :: 0 <= j < k < |Categories| ==> Categories[j].id != Categories[k].id
    ensures forall k :: 0 <= k < |Categories| ==> |Categories[k].title| > |"all"|
  {
  }

  /** 'all' names all categories, every CATEGORIES id names its entry's title, and any
      other id is passed on as it is. */
  lemma CategoryNameCases(id: string)
    ensures id == "all" ==> CategoryName(id) == AllCategoriesTitle
    ensures forall k :: 0 <= k < |Categories| && Categories[k].id == id ==>
      CategoryName(id) == Categories[k].title
    ensures id != "all" && (forall k :: 0 <= k < |Categories| ==> Categories[k].id != id) ==>
      CategoryName(id) == id
  {
    CategoriesWellFormed();
    assert Categories[0].id != "all";
  }

  /** The name of a non-empty id is itself non-empty and never 'all'. */
  lemma CategoryNameIsARestriction(id: string)
    requires id != ""
    ensures CategoryName(id) != "" && CategoryName(id) != "all"
  {
    CategoriesWellFormed();
  }

  /** The filter form's submit handler: each missing field defaults (the category to
      'all'), the category id is turned into its name, and searchWithFilters builds the
      message. Since that name is never empty and never 'all', the message always has its
      category line. */
  method SubmitFilters(location: Option<string>, category: Option<string>,
                       minPrice: Option<string>, maxPrice: Option<string>)
    returns (message: string)
    ensures message == FilterMessage(OrElse(location, ""), CategoryName(OrElse(category, "all")),
                                     OrElse(minPrice, ""), OrElse(maxPrice, ""))
    ensures Slot(FilterLines(OrElse(location, ""), CategoryName(OrElse(category, "all")),
                             OrElse(minPrice, ""), OrElse(maxPrice, "")), Category)
            == Some(CategoryName(OrElse(category, "all")))
  {
    var loc := OrElse(location, "");
    var id := OrElse(category, "all");
    var min := OrElse(minPrice, "");
    var max := OrElse(maxPrice, "");
    var categoryName := AllCategoriesTitle;
    if id != "all" {
      var found := FindCategory(Categories, id);
      categoryName := if found.Some? then found.value.title else id;
    }
    message := SearchWithFilters(loc, categoryName, min, max);
    CategoryNameIsARestriction(id);
    FilterLinesShape(loc, categoryName, min, max);
  }

  // ---------------------------------------------------------------------------------------
  // Property buttons

  /** A "View Details" button on a property card: title, location and price text of the
      card, with 'Property' and 'Unknown' for a missing title or location and only the
      digits of the price. */
  function PropertyCardInquiry(title: Option<string>, location: Option<string>,
                               price: Option<string>): string
  {
    PropertyInquiry(OrElse(title, "Property"), OrElse(location, "Unknown"),
                    DigitsOnly(OrElse(price, "")))
  }

  /** The property page's "Contact Owner" button: as a card, but a missing location
      becomes the empty string. */
  function ContactOwnerInquiry(title: Option<string>, location: Option<string>,
                               price: Option<string>): string
  {
    PropertyInquiry(OrElse(title, "Property"), OrElse(location, ""), DigitsOnly(OrElse(price, "")))
  }

  /** The property page's "Book a Visit" button. */
  function BookVisitInquiry(title: Option<string>, location: Option<string>): string
  {
    BookVisit(OrElse(title, "Property"), OrElse(location, ""))
  }

  /** A card whose title or location is missing or empty still names something, and the
      price in the message is the digits of the card's price text and nothing else. */
  lemma PropertyCardFields(title: Option<string>, location: Option<string>, price: Option<string>)
    ensures var name := OrElse(title, "Property");
      var place := OrElse(location, "Unknown");
      var digits := DigitsOnly(OrElse(price, ""));
      var m := PropertyCardInquiry(title, location, price);
      var n := |PropertyInquiryLead|;
      var l := n + |name| + |NameToLocation|;
      var p := l + |place| + |LocationToPrice|;
      && OccursAt(m, name, n) && OccursAt(m, place, l) && OccursAt(m, digits, p)
      && (title.None? || title == Some("") ==> name == "Property")
      && (location.None? || location == Some("") ==> place == "Unknown")
      && name != "" && place != ""
      && (forall i :: 0 <= i < |digits| ==> IsDigit(digits[i]))
      && IsSubsequence(digits, OrElse(price, ""))
  {
    var name, place := OrElse(title, "Property"), OrElse(location, "Unknown");
    var digits := DigitsOnly(OrElse(price, ""));
    PropertyInquiryOrder(name, place, digits);
    DigitsOnlyIsSubsequence(OrElse(price, ""));
  }

  /** The "Contact Owner" message names the page's title (or 'Property') and location (or
      nothing) verbatim, then the digits of the page's price, in that order. */
  lemma ContactOwnerFields(title: Option<string>, location: Option<string>, price: Option<string>)
    ensures var name := OrElse(title, "Property");
      var place := OrElse(location, "");
      var digits := DigitsOnly(OrElse(price, ""));
      var m := ContactOwnerInquiry(title, location, price);
      var n := |PropertyInquiryLead|;
      var l := n + |name| + |NameToLocation|;
      var p := l + |place| + |LocationToPrice|;
      && OccursAt(m, name, n) && OccursAt(m, place, l) && OccursAt(m, digits, p)
      && (title.None? || title == Some("") ==> name == "Property")
      && (location.None? ==> place == "")
      && (forall i :: 0 <= i < |digits| ==> IsDigit(digits[i]))
      && IsSubsequence(digits, OrElse(price, ""))
  {
    var name, place := OrElse(title, "Property"), OrElse(location, "");
    PropertyInquiryOrder(name, place, DigitsOnly(OrElse(price, "")));
    DigitsOnlyIsSubsequence(OrElse(price, ""));
  }

  /** The "Book a Visit" message names the page's title (or 'Property') and then its
      location (or nothing) verbatim. */
  lemma BookVisitFields(title: Option<string>, location: Option<string>)
    ensures var name := OrElse(title, "Property");
      var place := OrElse(location, "");
      var m := BookVisitInquiry(title, location);
      var n := |BookVisitLead|;
      var l := n + |name| + |NameToLocation|;
      && OccursAt(m, name, n) && OccursAt(m, place, l)
      && (title.None? || title == Some("") ==> name == "Property")
      && (location.None? ==> place == "")
      && m[l + |place|..] == BookVisitTail
  {
    BookVisitOrder(OrElse(title, "Property"), OrElse(location, ""));
  }

  // ---------------------------------------------------------------------------------------
  // Search box and category cards

  /** The search box: the typed text is trimmed, and a text that is nothing but white space
      is refused (None: "Please enter a location to search"); otherwise the location search
      is sent for the trimmed text. */
  function SearchBoxQuery(input: string): (r: Option<string>)
    ensures r.None? <==> forall i :: 0 <= i < |input| ==> IsTrimmable(input[i])
    ensures r.Some? ==> Between(r.value, SearchLocationLead, SearchLocationTail) == Some(Trim(input))
  {
    TrimEmptyIffBlank(input);
    SearchLocationVerbatim(Trim(input));
    var location := Trim(input);
    if location != "" then Some(SearchLocation(location)) else None
  }

  /** A click on a category card asks about the card's trimmed title; a card without a
      title sends nothing. */
  function CategoryCardQuery(title: Option<string>): (r: Option<string>)
    ensures r.None? <==> title.None?
    ensures r.Some? ==> Between(r.value, CategoryInquiryLead, CategoryInquiryTail) == Some(Trim(title.value))
  {
    match title
    case None => None
    case Some(t) =>
      CategoryInquiryVerbatim(Trim(t));
      Some(CategoryInquiry(Trim(t)))
  }

  // ---------------------------------------------------------------------------------------
  // Feedback form

  /** What a click on the feedback submit button leads to. */
  datatype SubmitOutcome =
    | NoRating        // "Please select a rating"
    | NoFeedback      // "Please enter your feedback"
    | Send(message: string)

  /** The feedback submit handler. The rating is checked first: 0 means none was picked.
      Then a text that is empty once trimmed is refused. Otherwise the message carries the
      text as typed, untrimmed, and the name if one was given. */
  method SubmitFeedback(selectedRating: int, feedback: Option<string>, name: Option<string>)
    returns (outcome: SubmitOutcome)
    ensures outcome == NoRating <==> selectedRating == 0
    ensures outcome == NoFeedback <==>
      selectedRating != 0 && forall i :: 0 <= i < |OrElse(feedback, "")| ==>
        IsTrimmable(OrElse(feedback, "")[i])
    ensures outcome.Send? ==>
      outcome.message == FeedbackMessage(selectedRating, OrElse(feedback, ""), OrElse(name, ""))
  {
    var text := OrElse(feedback, "");
    var author := OrElse(name, "");
    if selectedRating == 0 {
      return NoRating;
    }
    TrimEmptyIffBlank(text);
    if Trim(text) == "" {
      return NoFeedback;
    }
    var message := Feedback(selectedRating, text, author);
    outcome := Send(message);
  }
}
