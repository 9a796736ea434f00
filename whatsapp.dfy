/** The WhatsApp object of the page script: the deep link every action ends in, and the
    message templates, one per kind of inquiry. Emoji and the `*bold*` markers are plain
    characters of the text; code points are written as escapes (U+1F4CD is the pin, U+1F3F7
    U+FE0F the label, U+1F4B0 the money bag, U+20B9 the rupee sign, U+1F3E0 the house, U+2B50
    the star, U+1F464 the bust, U+1F4DD the memo). */
module WhatsApp {
  import opened Wrappers
  import opened UriComponent
  import opened TextRules

  // ---------------------------------------------------------------------------------------
  // The link

  /** CONFIG.whatsappNumber: set once when the script loads and never reassigned. */
  const WhatsAppNumber: string := "9990997837"

  /** Everything in front of the encoded message. */
  const LinkPrefix: string := "https://wa.me/" + WhatsAppNumber + "?text="

  /** generateLink(message): the fixed prefix followed by encodeURIComponent(message). After
      the prefix only unreserved characters and '%' occur, so the message cannot end the
      query value early or start another parameter or a fragment. */
  function GenerateLink(message: string): (link: string)
    ensures |LinkPrefix| <= |link| && link[..|LinkPrefix|] == LinkPrefix
    ensures forall i :: |LinkPrefix| <= i < |link| ==> IsUnreserved(link[i]) || link[i] == '%'
  {
    LinkPrefix + EncodeUriComponent(message)
  }

  /** What a reader of the link finds as its text parameter: the percent-decoded rest of a
      link that starts with the prefix. */
  function TextParameter(link: string): Option<string>
  {
    if |LinkPrefix| <= |link| && link[..|LinkPrefix|] == LinkPrefix
    then DecodeUriComponent(link[|LinkPrefix|..])
    else None
  }

  /** The link carries the message unchanged, emoji and line breaks included. */
  lemma LinkCarriesMessage(message: string)
    ensures TextParameter(GenerateLink(message)) == Some(message)
  {
    var link := GenerateLink(message);
    assert link[|LinkPrefix|..] == EncodeUriComponent(message);
    DecodeEncode(message);
  }

  /** Two different messages never open the same chat text. */
  lemma GenerateLinkInjective(m1: string, m2: string)
    requires GenerateLink(m1) == GenerateLink(m2)
    ensures m1 == m2
  {
    LinkCarriesMessage(m1);
    LinkCarriesMessage(m2);
  }

  /** Not a character that would end or split a query value. */
  predicate Plain(c: char)
  {
    c !in {' ', '\n', '&', '#', '?'}
  }

  /** Scheme, host, path and number hold no such character; the one '?' opens the query. */
  lemma PrefixPlain()
    ensures forall i :: 0 <= i < |LinkPrefix| ==>
      Plain(LinkPrefix[i]) || (LinkPrefix[i] == '?' && i == |LinkPrefix| - 6)
  {
    var site := "https://wa.me/";
    assert LinkPrefix == site + WhatsAppNumber + "?text=";
    forall i | 0 <= i < |LinkPrefix|
      ensures Plain(LinkPrefix[i]) || (LinkPrefix[i] == '?' && i == |LinkPrefix| - 6)
    {
      if i < |site| {
        assert LinkPrefix[i] == site[i];
      } else if i < |site| + |WhatsAppNumber| {
        assert LinkPrefix[i] == WhatsAppNumber[i - |site|];
      } else {
        assert LinkPrefix[i] == "?text="[i - |site| - |WhatsAppNumber|];
      }
    }
  }

  /** The link holds no space or line break anywhere, its only '?' is the one that opens the
      query, and it holds no '&' or '#'. */
  lemma LinkIsOneQueryValue(message: string)
    ensures forall i :: 0 <= i < |GenerateLink(message)| ==>
      GenerateLink(message)[i] !in {' ', '\n', '&', '#'}
    ensures forall i :: 0 <= i < |GenerateLink(message)| && GenerateLink(message)[i] == '?' ==>
      i == |LinkPrefix| - 6
  {
    var link := GenerateLink(message);
    PrefixPlain();
    forall i | 0 <= i < |link|
      ensures Plain(link[i]) || (link[i] == '?' && i == |LinkPrefix| - 6)
    {
      if i < |LinkPrefix| {
        assert link[i] == LinkPrefix[i];
      } else {
        assert IsUnreserved(link[i]) || link[i] == '%';
      }
    }
  }

  /** Every message opens with this greeting. */
  const Greeting: string := "Hi! "

  // ---------------------------------------------------------------------------------------
  // Labelled lines of the two step-by-step messages

  /** The fields a message can carry on a line of its own. */
  datatype Field = Location | Category | MinBudget | MaxBudget | Rating | Name

  /** A field with the text the handler passed for it. */
  datatype Line = Line(field: Field, value: string)

  function Icon(f: Field): string
  {
    match f
    case Location => "\U{1F4CD}"
    case Category => "\U{1F3F7}\U{FE0F}"
    case MinBudget => "\U{1F4B0}"
    case MaxBudget => "\U{1F4B0}"
    case Rating => "\U{2B50}"
    case Name => "\U{1F464}"
  }

  function Label(f: Field): string
  {
    match f
    case Location => "Location"
    case Category => "Category"
    case MinBudget => "Min Budget"
    case MaxBudget => "Max Budget"
    case Rating => "Rating"
    case Name => "Name"
  }

  /** The text around the value: budgets are rupees per month, the rating is out of five. */
  function Before(f: Field): string
  {
    if f == MinBudget || f == MaxBudget then "\U{20B9}" else ""
  }

  function After(f: Field): string
  {
    match f
    case MinBudget => "/month"
    case MaxBudget => "/month"
    case Rating => "/5"
    case _ => ""
  }

  /** `<icon> *<label>:* <value>\n`, the shape of every labelled line. */
  function RenderLine(l: Line): string
  {
    Icon(l.field) + " *" + Label(l.field) + ":* " + Before(l.field) + l.value + After(l.field) + "\n"
  }

  function RenderLines(ls: seq<Line>): string
  {
    if ls == [] then "" else RenderLine(ls[0]) + RenderLines(ls[1..])
  }

  /** The position of a field in the messages: lines always come in this order. */
  function Rank(f: Field): nat
  {
    match f
    case Location => 0
    case Category => 1
    case MinBudget => 2
    case MaxBudget => 3
    case Rating => 4
    case Name => 5
  }

  predicate StrictlyRanked(ls: seq<Line>)
  {
    forall i, j :: 0 <= i < j < |ls| ==> Rank(ls[i].field) < Rank(ls[j].field)
  }

  /** The condition under which a handler appends a line: the value is a non-empty string
      (JavaScript truthiness), and a category of 'all' is not a restriction. */
  predicate Shown(l: Line)
  {
    l.value != "" && !(l.field == Category && l.value == "all")
  }

  /** The lines that are shown, in their original order. */
  function KeepShown(ls: seq<Line>): (r: seq<Line>)
    ensures forall l :: l in r <==> l in ls && Shown(l)
    ensures |r| <= |ls|
  {
    if ls == [] then []
    else if Shown(ls[0]) then [ls[0]] + KeepShown(ls[1..])
    else KeepShown(ls[1..])
  }

  /** Keeping the shown lines of a concatenation keeps those of each part, in order. */
  lemma {:induction false} KeepShownAppend(a: seq<Line>, b: seq<Line>)
    ensures KeepShown(a + b) == KeepShown(a) + KeepShown(b)
  {
    if a == [] {
      assert a + b == b;
    } else {
      assert (a + b)[1..] == a[1..] + b;
      KeepShownAppend(a[1..], b);
    }
  }

  /** Every line ranks after `m`. */
  predicate RankedAfter(ls: seq<Line>, m: nat)
  {
    forall i :: 0 <= i < |ls| ==> m < Rank(ls[i].field)
  }

  lemma {:induction false} KeepShownRankedAfter(ls: seq<Line>, m: nat)
    requires RankedAfter(ls, m)
    ensures RankedAfter(KeepShown(ls), m)
  {
    if ls != [] {
      KeepShownRankedAfter(ls[1..], m);
    }
  }

  /** Dropping lines never reorders the others. */
  lemma {:induction false} KeepShownRanked(ls: seq<Line>)
    requires StrictlyRanked(ls)
    ensures StrictlyRanked(KeepShown(ls))
  {
    if ls != [] {
      var rest := KeepShown(ls[1..]);
      KeepShownRanked(ls[1..]);
      if Shown(ls[0]) {
        KeepShownRankedAfter(ls[1..], Rank(ls[0].field));
        var r := [ls[0]] + rest;
        forall i, j | 0 <= i < j < |r| ensures Rank(r[i].field) < Rank(r[j].field) {
          if i == 0 {
            assert r[j] == rest[j - 1];
          } else {
            assert r[i] == rest[i - 1] && r[j] == rest[j - 1];
          }
        }
      }
    }
  }

  /** The value of the line for field `f`, if there is one. */
  function Slot(ls: seq<Line>, f: Field): Option<string>
  {
    if ls == [] then None
    else if ls[0].field == f then Some(ls[0].value)
    else Slot(ls[1..], f)
  }

  lemma {:induction false} SlotAbsent(ls: seq<Line>, f: Field)
    requires forall i :: 0 <= i < |ls| ==> ls[i].field != f
    ensures Slot(ls, f) == None
  {
    if ls != [] {
      SlotAbsent(ls[1..], f);
    }
  }

  /** Among lines with distinct fields, the slot of a field is the value of its line. */
  lemma {:induction false} SlotOfLine(ls: seq<Line>, k: nat)
    requires StrictlyRanked(ls) && k < |ls|
    ensures Slot(ls, ls[k].field) == Some(ls[k].value)
  {
    if k > 0 {
      assert Rank(ls[0].field) < Rank(ls[k].field);
      SlotOfLine(ls[1..], k - 1);
    }
  }

  /** Among lines with distinct fields, the field is present after filtering exactly when
      it was present before and its line is shown. */
  lemma {:induction false} SlotKeepShown(ls: seq<Line>, f: Field)
    requires StrictlyRanked(ls)
    ensures Slot(KeepShown(ls), f) ==
      if Slot(ls, f).Some? && Shown(Line(f, Slot(ls, f).value)) then Slot(ls, f) else None
  {
    if ls != [] {
      SlotKeepShown(ls[1..], f);
      if ls[0].field == f {
        assert forall i :: 0 <= i < |ls[1..]| ==> ls[1..][i].field != f by {
          forall i | 0 <= i < |ls[1..]| ensures ls[1..][i].field != f {
            assert Rank(ls[0].field) < Rank(ls[i + 1].field);
          }
        }
        SlotAbsent(ls[1..], f);
      }
    }
  }

  // ---------------------------------------------------------------------------------------
  // searchWithFilters

  const FilterHeader: string :=
    Greeting + "I'm looking for rental properties with the following requirements:\n\n"
  const FilterFooter: string := "\nPlease share available options. Thank you!"

  /** The candidate lines of a filtered search, in the order the handler tries them. */
  function FilterCandidates(location: string, category: string, minPrice: string, maxPrice: string)
    : seq<Line>
  {
    [Line(Location, location), Line(Category, category),
     Line(MinBudget, minPrice), Line(MaxBudget, maxPrice)]
  }

  /** The lines of a filtered search. */
  function FilterLines(location: string, category: string, minPrice: string, maxPrice: string)
    : seq<Line>
  {
    KeepShown(FilterCandidates(location, category, minPrice, maxPrice))
  }

  /** Each of location, minimum and maximum budget has its line exactly when it is given, a
      category exactly when it is given and is not 'all', each with the value passed in; no
      other line appears, and the lines come as location, category, minimum, maximum. */
  lemma FilterLinesShape(location: string, category: string, minPrice: string, maxPrice: string)
    ensures var ls := FilterLines(location, category, minPrice, maxPrice);
      && Slot(ls, Location) == (if location != "" then Some(location) else None)
      && Slot(ls, Category) == (if category != "" && category != "all" then Some(category) else None)
      && Slot(ls, MinBudget) == (if minPrice != "" then Some(minPrice) else None)
      && Slot(ls, MaxBudget) == (if maxPrice != "" then Some(maxPrice) else None)
      && Slot(ls, Rating) == None && Slot(ls, Name) == None
      && StrictlyRanked(ls)
  {
    var cs := FilterCandidates(location, category, minPrice, maxPrice);
    assert StrictlyRanked(cs);
    KeepShownRanked(cs);
    SlotOfLine(cs, 0);
    SlotOfLine(cs, 1);
    SlotOfLine(cs, 2);
    SlotOfLine(cs, 3);
    SlotAbsent(cs, Rating);
    SlotAbsent(cs, Name);
    SlotKeepShown(cs, Location);
    SlotKeepShown(cs, Category);
    SlotKeepShown(cs, MinBudget);
    SlotKeepShown(cs, MaxBudget);
    SlotKeepShown(cs, Rating);
    SlotKeepShown(cs, Name);
  }

  /** The message searchWithFilters sends. */
  function FilterMessage(location: string, category: string, minPrice: string, maxPrice: string)
    : string
  {
    FilterHeader + RenderLines(FilterLines(location, category, minPrice, maxPrice)) + FilterFooter
  }

  lemma {:induction false} RenderLinesAppend(a: seq<Line>, b: seq<Line>)
    ensures RenderLines(a + b) == RenderLines(a) + RenderLines(b)
  {
    if a == [] {
      assert a + b == b;
    } else {
      assert (a + b)[1..] == a[1..] + b;
      RenderLinesAppend(a[1..], b);
    }
  }

  lemma KeepShownSnoc(done: seq<Line>, l: Line)
    ensures KeepShown(done + [l]) == KeepShown(done) + if Shown(l) then [l] else []
  {
    KeepShownAppend(done, [l]);
    assert KeepShown([l]) == (if Shown(l) then [l] else []) + KeepShown([]);
  }

  lemma RenderLinesSnoc(ls: seq<Line>, l: Line)
    ensures RenderLines(ls + [l]) == RenderLines(ls) + RenderLine(l)
  {
    RenderLinesAppend(ls, [l]);
    assert RenderLines([l]) == RenderLine(l) + RenderLines([]);
  }

  /** Appending a shown line extends the rendering of the shown part of the lines handled
      so far. */
  lemma AppendShown(lead: string, done: seq<Line>, l: Line, m: string)
    requires m == lead + RenderLines(KeepShown(done)) && Shown(l)
    ensures m + RenderLine(l) == lead + RenderLines(KeepShown(done + [l]))
  {
    KeepShownSnoc(done, l);
    RenderLinesSnoc(KeepShown(done), l);
  }

  /** A line that is not shown leaves the rendering as it is. */
  lemma SkipHidden(lead: string, done: seq<Line>, l: Line, m: string)
    requires m == lead + RenderLines(KeepShown(done)) && !Shown(l)
    ensures m == lead + RenderLines(KeepShown(done + [l]))
  {
    KeepShownSnoc(done, l);
    assert KeepShown(done) + [] == KeepShown(done);
  }

  /** `middle` framed by `lead` and `tail`. */
  predicate Framed(m: string, lead: string, tail: string)
  {
    |lead| + |tail| <= |m| && m[..|lead|] == lead && m[|m| - |tail|..] == tail
  }

  lemma FramedConcat(lead: string, middle: string, tail: string)
    ensures Framed(lead + middle + tail, lead, tail)
  {
    var m := lead + middle + tail;
    assert m[..|lead|] == lead;
    assert m[|m| - |tail|..] == tail;
  }

  /** Whatever is given, the message opens with the requirements header and closes with the
      request for options. */
  lemma FilterMessageFramed(location: string, category: string, minPrice: string, maxPrice: string)
    ensures Framed(FilterMessage(location, category, minPrice, maxPrice), FilterHeader, FilterFooter)
  {
    FramedConcat(FilterHeader, RenderLines(FilterLines(location, category, minPrice, maxPrice)),
                 FilterFooter);
  }

  /** searchWithFilters(location, category, minPrice, maxPrice), building the message one
      conditional append at a time. */
  method SearchWithFilters(location: string, category: string, minPrice: string, maxPrice: string)
    returns (message: string)
    ensures message == FilterMessage(location, category, minPrice, maxPrice)
  {
    var loc, cat := Line(Location, location), Line(Category, category);
    var min, max := Line(MinBudget, minPrice), Line(MaxBudget, maxPrice);
    message := FilterHeader;
    assert [] + [loc] == [loc] && [loc] + [cat] == [loc, cat];
    assert [loc, cat] + [min] == [loc, cat, min] && [loc, cat, min] + [max] == [loc, cat, min, max];
    if location != "" {
      AppendShown(FilterHeader, [], loc, message);
      message := message + RenderLine(loc);
    } else {
      SkipHidden(FilterHeader, [], loc, message);
    }
    if category != "" && category != "all" {
      AppendShown(FilterHeader, [loc], cat, message);
      message := message + RenderLine(cat);
    } else {
      SkipHidden(FilterHeader, [loc], cat, message);
    }
    if minPrice != "" {
      AppendShown(FilterHeader, [loc, cat], min, message);
      message := message + RenderLine(min);
    } else {
      SkipHidden(FilterHeader, [loc, cat], min, message);
    }
    if maxPrice != "" {
      AppendShown(FilterHeader, [loc, cat, min], max, message);
      message := message + RenderLine(max);
    } else {
      SkipHidden(FilterHeader, [loc, cat, min], max, message);
    }
    message := message + FilterFooter;
  }

  // ---------------------------------------------------------------------------------------
  // feedback

  const FeedbackHeader: string := Greeting + "Here's my feedback for RentEase:\n\n"
  /** The line that introduces the feedback text, with the empty line before it. */
  const FeedbackHeading: string := "\n\U{1F4DD} *Feedback:*\n"

  function RatingLine(rating: int): Line
  {
    Line(Rating, IntToDecimal(rating))
  }

  /** The labelled lines of a feedback message: the rating, then the name if one is given. */
  function FeedbackLines(rating: int, name: string): seq<Line>
  {
    [RatingLine(rating)] + KeepShown([Line(Name, name)])
  }

  /** The message feedback sends. */
  function FeedbackMessage(rating: int, feedbackText: string, name: string): string
  {
    FeedbackHeader + RenderLines(FeedbackLines(rating, name)) + FeedbackHeading + feedbackText
  }

  /** The rating line always comes first, as `<rating>/5`; the name line follows it exactly
      when a name is given; no search line appears. */
  lemma FeedbackLinesShape(rating: int, name: string)
    ensures var ls := FeedbackLines(rating, name);
      && ls[0] == RatingLine(rating)
      && Slot(ls, Rating) == Some(IntToDecimal(rating))
      && Slot(ls, Name) == (if name != "" then Some(name) else None)
      && Slot(ls, Location) == None && Slot(ls, Category) == None
      && Slot(ls, MinBudget) == None && Slot(ls, MaxBudget) == None
      && StrictlyRanked(ls)
  {
    var ls := FeedbackLines(rating, name);
    assert ls == if name != "" then [RatingLine(rating), Line(Name, name)] else [RatingLine(rating)];
    assert forall i :: 0 <= i < |ls| ==> ls[i].field in {Rating, Name};
    SlotAbsent(ls, Location);
    SlotAbsent(ls, Category);
    SlotAbsent(ls, MinBudget);
    SlotAbsent(ls, MaxBudget);
  }

  /** Right after the rating line the message continues with the name line (which starts
      with the bust) exactly when a name is given; otherwise the feedback heading follows. */
  lemma FeedbackNameLineIff(rating: int, feedbackText: string, name: string)
    ensures var m := FeedbackMessage(rating, feedbackText, name);
      var k := |FeedbackHeader| + |RenderLine(RatingLine(rating))|;
      && k < |m|
      && m[..k] == FeedbackHeader + RenderLine(RatingLine(rating))
      && (m[k] == '\U{1F464}' <==> name != "")
  {
    var rl := RenderLine(RatingLine(rating));
    var rest := RenderLines(KeepShown([Line(Name, name)])) + FeedbackHeading + feedbackText;
    assert RenderLines(FeedbackLines(rating, name)) == rl + RenderLines(KeepShown([Line(Name, name)]))
    by {
      assert FeedbackLines(rating, name)[1..] == KeepShown([Line(Name, name)]);
    }
    var m := FeedbackMessage(rating, feedbackText, name);
    assert m == (FeedbackHeader + rl) + rest;
    if name != "" {
      assert KeepShown([Line(Name, name)]) == [Line(Name, name)];
      assert rest[0] == RenderLine(Line(Name, name))[0];
    } else {
      assert KeepShown([Line(Name, name)]) == [];
      assert rest[0] == FeedbackHeading[0];
    }
  }

  /** The feedback text is the final segment of the message: taking it away leaves the
      message for an empty text, which ends with the feedback heading. */
  lemma FeedbackTextLast(rating: int, feedbackText: string, name: string)
    ensures var m := FeedbackMessage(rating, feedbackText, name);
      var head := FeedbackMessage(rating, "", name);
      && m == head + feedbackText
      && |FeedbackHeading| <= |head| && head[|head| - |FeedbackHeading|..] == FeedbackHeading
  {
    var lines := FeedbackHeader + RenderLines(FeedbackLines(rating, name));
    assert FeedbackMessage(rating, "", name) == lines + FeedbackHeading;
  }

  /** The message is the header and the rating line, then the shown name line, then the
      feedback heading and the text. */
  lemma FeedbackMessageSplit(rating: int, feedbackText: string, name: string)
    ensures FeedbackMessage(rating, feedbackText, name) ==
      (FeedbackHeader + RenderLine(RatingLine(rating))) + RenderLines(KeepShown([Line(Name, name)]))
      + FeedbackHeading + feedbackText
  {
    var ls := FeedbackLines(rating, name);
    assert RenderLines(ls) == RenderLine(RatingLine(rating)) + RenderLines(ls[1..]);
    assert ls[1..] == KeepShown([Line(Name, name)]);
  }

  /** feedback(rating, feedbackText, name), building the message one append at a time. */
  method Feedback(rating: int, feedbackText: string, name: string) returns (message: string)
    ensures message == FeedbackMessage(rating, feedbackText, name)
  {
    var nameLine := Line(Name, name);
    message := FeedbackHeader;
    message := message + RenderLine(RatingLine(rating));
    ghost var lead := message;
    assert message == lead + RenderLines(KeepShown([]));
    assert [] + [nameLine] == [nameLine];
    if name != "" {
      AppendShown(lead, [], nameLine, message);
      message := message + RenderLine(nameLine);
    } else {
      SkipHidden(lead, [], nameLine, message);
    }
    message := message + FeedbackHeading + feedbackText;
    FeedbackMessageSplit(rating, feedbackText, name);
  }

  // ---------------------------------------------------------------------------------------
  // The fixed templates

  /** `x` occurs in `m` starting at index `k`. */
  predicate OccursAt(m: string, x: string, k: nat)
  {
    k + |x| <= |m| && m[k..k + |x|] == x
  }

  /** The text between `lead` and `tail`, when `m` is framed by them. */
  function Between(m: string, lead: string, tail: string): Option<string>
  {
    if Framed(m, lead, tail) then Some(m[|lead|..|m| - |tail|]) else None
  }

  lemma BetweenConcat(lead: string, x: string, tail: string)
    ensures Between(lead + x + tail, lead, tail) == Some(x)
  {
    var m := lead + x + tail;
    FramedConcat(lead, x, tail);
    assert m[|lead|..|m| - |tail|] == x;
  }

  const SearchLocationLead: string := Greeting + "I'm looking for rental properties in *"
  const SearchLocationTail: string :=
    "*.\n\nPlease share available options for:\n- Houses/Flats\n- PGs/Hostels\n"
    + "- Co-working spaces\n- Library seats\n\nThank you!"

  /** searchLocation(location). */
  function SearchLocation(location: string): string
  {
    SearchLocationLead + location + SearchLocationTail
  }

  /** The location stands verbatim, in bold, between the fixed opening and the list of
      property kinds, and can be read back from the message. */
  lemma SearchLocationVerbatim(location: string)
    ensures Between(SearchLocation(location), SearchLocationLead, SearchLocationTail) == Some(location)
  {
    BetweenConcat(SearchLocationLead, location, SearchLocationTail);
  }

  const CategoryInquiryLead: string := Greeting + "I'm interested in *"
  const CategoryInquiryTail: string :=
    "* rentals.\n\nPlease share available options in my area.\n\nThank you!"

  /** categoryInquiry(category). */
  function CategoryInquiry(category: string): string
  {
    CategoryInquiryLead + category + CategoryInquiryTail
  }

  lemma CategoryInquiryVerbatim(category: string)
    ensures Between(CategoryInquiry(category), CategoryInquiryLead, CategoryInquiryTail) == Some(category)
  {
    BetweenConcat(CategoryInquiryLead, category, CategoryInquiryTail);
  }

  const PropertyInquiryLead: string := Greeting + "I'm interested in this property:\n\n\U{1F3E0} *"
  /** Closes the bold name and opens the location line. */
  const NameToLocation: string := "*\n\U{1F4CD} "
  const LocationToPrice: string := "\n\U{1F4B0} \U{20B9}"
  const PropertyInquiryTail: string :=
    "/month\n\nPlease share more details about:\n- Availability\n- Amenities\n"
    + "- Visit schedule\n\nThank you!"

  /** propertyInquiry(propertyName, location, price). */
  function PropertyInquiry(propertyName: string, location: string, price: string): string
  {
    PropertyInquiryLead + propertyName + NameToLocation + location + LocationToPrice + price
      + PropertyInquiryTail
  }

  /** The property name, the location and the price each appear verbatim, in that order,
      with the fixed text between them. */
  lemma PropertyInquiryOrder(propertyName: string, location: string, price: string)
    ensures var m := PropertyInquiry(propertyName, location, price);
      var n := |PropertyInquiryLead|;
      var l := n + |propertyName| + |NameToLocation|;
      var p := l + |location| + |LocationToPrice|;
      && OccursAt(m, propertyName, n)
      && OccursAt(m, location, l)
      && OccursAt(m, price, p)
      && n + |propertyName| < l && l + |location| < p
      && m[p + |price|..] == PropertyInquiryTail
  {
    var m := PropertyInquiry(propertyName, location, price);
    var n := |PropertyInquiryLead|;
    var l := n + |propertyName| + |NameToLocation|;
    var p := l + |location| + |LocationToPrice|;
    assert m[n..n + |propertyName|] == propertyName;
    assert m[l..l + |location|] == location;
    assert m[p..p + |price|] == price;
  }

  const BookVisitLead: string := Greeting + "I'd like to schedule a visit for:\n\n\U{1F3E0} *"
  const BookVisitTail: string :=
    "\n\nPlease let me know available dates and timings.\n\nThank you!"

  /** bookVisit(propertyName, location). */
  function BookVisit(propertyName: string, location: string): string
  {
    BookVisitLead + propertyName + NameToLocation + location + BookVisitTail
  }

  /** The property name and then the location appear verbatim. */
  lemma BookVisitOrder(propertyName: string, location: string)
    ensures var m := BookVisit(propertyName, location);
      var n := |BookVisitLead|;
      var l := n + |propertyName| + |NameToLocation|;
      && OccursAt(m, propertyName, n)
      && OccursAt(m, location, l)
      && n + |propertyName| < l
      && m[l + |location|..] == BookVisitTail
  {
    var m := BookVisit(propertyName, location);
    var n := |BookVisitLead|;
    var l := n + |propertyName| + |NameToLocation|;
    assert m[n..n + |propertyName|] == propertyName;
    assert m[l..l + |location|] == location;
  }

  /** support(): the user types the issue after the prompt. */
  const SupportMessage: string := Greeting + "I need help with RentEase.\n\nMy issue is: "
  /** general() */
  const GeneralMessage: string := Greeting + "I have a question about RentEase.\n\n"
  /** partnership() */
  const PartnershipMessage: string :=
    Greeting + "I'm interested in listing my property on RentEase.\n\n"
    + "Please share the details on how I can become a partner.\n\nThank you!"

  // ---------------------------------------------------------------------------------------
  // Every inquiry

  /** The kinds of inquiry, with what each template takes. */
  datatype Inquiry =
    | LocationSearch(location: string)
    | FilteredSearch(location: string, category: string, minPrice: string, maxPrice: string)
    | CategoryQuestion(category: string)
    | PropertyQuestion(propertyName: string, location: string, price: string)
    | VisitRequest(propertyName: string, location: string)
    | SupportRequest
    | FeedbackNote(rating: int, feedbackText: string, name: string)
    | GeneralQuestion
    | PartnershipOffer

  /** The message of an inquiry, as the template of its kind renders it. */
  function Compose(inquiry: Inquiry): string
  {
    match inquiry
    case LocationSearch(location) => SearchLocation(location)
    case FilteredSearch(location, category, minPrice, maxPrice) =>
      FilterMessage(location, category, minPrice, maxPrice)
    case CategoryQuestion(category) => CategoryInquiry(category)
    case PropertyQuestion(propertyName, location, price) =>
      PropertyInquiry(propertyName, location, price)
    case VisitRequest(propertyName, location) => BookVisit(propertyName, location)
    case SupportRequest => SupportMessage
    case FeedbackNote(rating, feedbackText, name) => FeedbackMessage(rating, feedbackText, name)
    case GeneralQuestion => GeneralMessage
    case PartnershipOffer => PartnershipMessage
  }

  /** Every message, whatever its fields (all of them empty included), opens with the
      greeting. */
  lemma ComposeGreets(inquiry: Inquiry)
    ensures var m := Compose(inquiry); |Greeting| <= |m| && m[..|Greeting|] == Greeting
  {
    var m := Compose(inquiry);
    match inquiry
    case LocationSearch(location) =>
      assert m == Greeting + (m[|Greeting|..]);
    case FilteredSearch(location, category, minPrice, maxPrice) =>
      FilterMessageFramed(location, category, minPrice, maxPrice);
      assert m[..|Greeting|] == m[..|FilterHeader|][..|Greeting|];
    case CategoryQuestion(category) =>
      assert m == Greeting + (m[|Greeting|..]);
    case PropertyQuestion(propertyName, location, price) =>
      assert m == Greeting + (m[|Greeting|..]);
    case VisitRequest(propertyName, location) =>
      assert m == Greeting + (m[|Greeting|..]);
    case FeedbackNote(rating, feedbackText, name) =>
      FeedbackNameLineIff(rating, feedbackText, name);
      assert m[..|Greeting|] == (FeedbackHeader + RenderLine(RatingLine(rating)))[..|Greeting|];
    case _ =>
  }

  /** Every message opens with the greeting, and the link built from it hands exactly that
      message to the chat. */
  lemma EveryInquiryGreetsAndArrives(inquiry: Inquiry)
    ensures var m := Compose(inquiry);
      && |Greeting| <= |m| && m[..|Greeting|] == Greeting
      && TextParameter(GenerateLink(m)) == Some(m)
  {
    ComposeGreets(inquiry);
    LinkCarriesMessage(Compose(inquiry));
  }
}
