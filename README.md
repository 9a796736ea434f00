# RentEase WhatsApp messages in Dafny

RentEase is a static rental-listing site whose every action ends in a WhatsApp chat: the
page script `js/app.js` builds a message for the action (a location search, a filtered
search, a question about a category or a property, a visit request, support, feedback, a
general question, a partnership offer) and opens `https://wa.me/<number>?text=<message>`
with the message percent-encoded by `encodeURIComponent`.

This project models that message-and-link builder and the small pure rules of the
handlers that feed it:

- `Utf8` — the UTF-8 encoding of one Unicode scalar value (RFC 3629, sections 3 and 4) and
  a decoder that accepts exactly the canonical encodings.
- `UriComponent` — `encodeURIComponent` and `decodeURIComponent` as section 19.2.6 of
  ECMA-262 defines them (Encode and Decode with the unreserved set
  `A-Z a-z 0-9 - _ . ! ~ * ' ( )`), with the round trip proved.
- `TextRules` — the digit filter `replace(/[^\d]/g, '')`, `String.prototype.trim` with the
  WhiteSpace and LineTerminator set of sections 12.2 and 12.3 of ECMA-262, and the decimal
  rendering of an integer inside a template literal.
- `WhatsApp` — `generateLink` and the nine templates. The seven fixed templates are
  functions of their arguments; `searchWithFilters` and `feedback`, which build their
  message with conditional `+=` appends, are methods proved equal to a specification
  function built from labelled lines (`Line`), a visibility rule (`Shown`) and a rank order.
- `Handlers` — the handler logic around the templates: the category id to title lookup of
  the filter form, the defaults and price digits of the property buttons, the trimming and
  refusal of the search box and the category cards, and the feedback submit guard. Values
  read from the page are `Option<string>` inputs (None for a missing field or element);
  each handler returns the message whose link it would open.

Strings are Dafny strings, sequences of Unicode scalar values, so each code point of an
emoji is one character and a lone surrogate cannot occur. Emoji and the `*bold*` markers
are plain text.

The feedback guard follows the code: it refuses only a rating of 0 (nothing selected), and
any other integer rating is sent as is: a rating of 6 is sent as `6/5`.

## Model

| member | source | states |
|---|---|---|
| Utf8.EncodeScalar | js/app.js:31 | the octets of a code point: one octet exactly below U+0080, the lead octet's leading ones give the length, every later octet is a continuation octet |
| Utf8.DecodeEncodeScalar | js/app.js:31 | decoding the octets of any scalar value gives that value back |
| Utf8.DecodeScalarSound | js/app.js:31 | whatever octets the decoder accepts are the canonical encoding of what it returns |
| Utf8.DecodeScalarAcceptsExactlyEncodings | js/app.js:31 | an octet sequence decodes to `c` if and only if it is the encoding of `c` (no overlong form, surrogate or value above U+10FFFF is accepted) |
| Utf8.ScalarExamples | js/app.js:31 | the rupee sign is E2 82 B9; C0 AF, ED A0 80 and F4 90 80 80 are refused |
| UriComponent.EncodeUriComponent | js/app.js:31 | every output character is unreserved or '%'; the output is at least as long as the input; text of unreserved characters only is returned unchanged |
| UriComponent.EncodeEscapedForm | js/app.js:31 | the output is a run of unreserved characters and `%XX` escapes with upper-case hexadecimal digits |
| UriComponent.DecodeEncode | js/app.js:31 | decodeURIComponent(encodeURIComponent(s)) is s for every string |
| UriComponent.EncodeInjective | js/app.js:31 | two strings with the same encoding are equal |
| UriComponent.EscapeExamples | js/app.js:31 | space, line feed and '%' become %20, %0A and %25; a truncated escape is refused by the decoder |
| WhatsApp.GenerateLink | js/app.js:30-32 | the link starts with `https://wa.me/9990997837?text=` and after it holds only unreserved characters and '%' |
| WhatsApp.LinkCarriesMessage | js/app.js:30-32 | the decoded text parameter of the link is exactly the message |
| WhatsApp.GenerateLinkInjective | js/app.js:30-32 | different messages give different links |
| WhatsApp.LinkIsOneQueryValue | js/app.js:30-32 | the link has no space, line feed, '&' or '#', and its only '?' is the one opening the query |
| WhatsApp.FilterLinesShape | js/app.js:47-52 | location, min and max budget lines appear exactly when their argument is non-empty, the category line exactly when it is non-empty and not 'all', each with its argument as value, in the order location, category, min, max, and no other line |
| WhatsApp.FilterMessageFramed | js/app.js:47-52 | the filtered search always opens with the requirements header and closes with "Please share available options. Thank you!" |
| WhatsApp.SearchWithFilters | js/app.js:46-53 | the message built by the four conditional appends is the header, the shown lines and the footer |
| WhatsApp.FeedbackLinesShape | js/app.js:83-84 | the rating line always comes first with the rating as value (rendered `<rating>/5`); the name line appears exactly when a name is given; no search line appears |
| WhatsApp.FeedbackNameLineIff | js/app.js:82-85 | after the header and the rating line the message continues with the name line exactly when the name is non-empty |
| WhatsApp.FeedbackTextLast | js/app.js:85 | the feedback text is the final segment of the message, right after the feedback heading |
| WhatsApp.Feedback | js/app.js:81-86 | the message built by the appends is the header, the rating line, the optional name line, the heading and the text |
| WhatsApp.SearchLocationVerbatim | js/app.js:40-41 | the location is embedded unchanged between the fixed opening and the fixed list, and reads back from the message |
| WhatsApp.CategoryInquiryVerbatim | js/app.js:57-58 | the category is embedded unchanged and reads back from the message |
| WhatsApp.PropertyInquiryOrder | js/app.js:63-64 | name, location and price occur verbatim at fixed offsets, in that order, followed by the fixed closing text |
| WhatsApp.BookVisitOrder | js/app.js:69-70 | name and then location occur verbatim, followed by the fixed closing text |
| WhatsApp.EveryInquiryGreetsAndArrives | js/app.js:39-99 | every one of the nine messages opens with "Hi! " and its link hands exactly that message to the chat |
| TextRules.DigitsOnly | js/app.js:253 | the result holds only digits, is no longer than the input, and an all-digit input is unchanged |
| TextRules.DigitsOnlyCounts | js/app.js:253 | every digit is kept as often as it occurs and no other character is kept |
| TextRules.DigitsOnlyIsSubsequence | js/app.js:253 | the digits keep their original order |
| TextRules.DigitsOnlyIdempotent | js/app.js:268 | filtering twice is filtering once |
| TextRules.TrimEmptyIffBlank | js/app.js:330 | trim gives the empty string exactly when the text is all white space |
| TextRules.TrimKeepsMiddle | js/app.js:178 | trim keeps a contiguous middle that neither starts nor ends with white space and cuts only white space |
| TextRules.NatToDecimal | js/app.js:83 | a non-empty string of digits with no leading zero |
| TextRules.NatToDecimalValue | js/app.js:83 | the rendered digits read back as the number |
| TextRules.IntToDecimalInjective | js/app.js:83 | different ratings render differently |
| Handlers.FirstWithId | js/app.js:218 | the index of the first entry with the id: no earlier entry has it, and the entry there does |
| Handlers.CategoriesWellFormed | js/app.js:20-26 | the category ids are distinct and no title is 'all' or shorter |
| Handlers.CategoryNameCases | js/app.js:216-220 | 'all' gives 'All Categories', an id of an entry gives that entry's title, any other id gives itself |
| Handlers.CategoryNameIsARestriction | js/app.js:216-220 | a non-empty id never yields an empty name or 'all' |
| Handlers.SubmitFilters | js/app.js:209-222 | missing fields default to '' and the category to 'all', the message is the filtered search for the looked-up name, and it always carries a category line |
| Handlers.PropertyCardFields | js/app.js:250-254 | a missing or empty title becomes 'Property' and location 'Unknown'; name, place and the digits of the price stand in the message in that order; the price holds only the digits of the card's price text, in order |
| Handlers.ContactOwnerFields | js/app.js:265-269 | title defaults to 'Property' and a missing location to ''; name, place and price digits stand in that order |
| Handlers.BookVisitFields | js/app.js:275-277 | title defaults to 'Property' and a missing location to ''; name then place stand verbatim |
| Handlers.SearchBoxQuery | js/app.js:177-184 | an all-white-space query is refused; otherwise the location search carries the trimmed query verbatim |
| Handlers.CategoryCardQuery | js/app.js:234-237 | a card without a title sends nothing; otherwise the category question carries the trimmed title verbatim |
| Handlers.SubmitFeedback | js/app.js:323-335 | refused for "no rating" exactly when the rating is 0, for "no feedback" exactly when the rating is set and the text is all white space; otherwise the feedback message with the untrimmed text and the name |

## Left out

- `WhatsApp.open` and `window.open` (js/app.js:35-37): opening a window is browser I/O; each handler returns the message and the URL opened is `GenerateLink` of it.
- `alert`: the refusals are the `None`, `NoRating` and `NoFeedback` results instead of dialogs.
- `CONFIG.siteUrl` (`window.location.origin`) and `localStorage`: browser state no message uses.
- Theme toggle, mobile navigation, header scroll, FAQ accordion, rating-button highlighting and the scroll animations: class toggles on page elements with nothing to state about messages.
- The location quick-search buttons (js/app.js:283-290): they pass a data attribute or trimmed text straight to `SearchLocation`, which `SearchLocationVerbatim` covers.
- The URIError `encodeURIComponent` throws on a lone surrogate: strings here are sequences of scalar values, so that input does not exist in the model.
- `parseInt(btn.dataset.rating)` (js/app.js:314): the rating is an integer input; a NaN rating is not modelled.
- The UTF-16 code-unit view of strings: Encode reads whole code points, which is what the model's characters are.
- `\d` and `String.prototype.trim` are modelled for the characters ECMA-262 names; no locale or Unicode-property matching is involved.
- TextRules.IntToDecimal: the rating is taken as a safe integer; JavaScript's rendering of larger Numbers (shortest round-trip digits, exponent form from 10^21 up) is not modelled.
