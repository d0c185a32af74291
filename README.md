# Amazon-helper shipping-label core, in Dafny

Amazon-helper is a small Flask tool for sellers. A seller pastes an Amazon Seller Central
order page. The tool pulls the buyer's shipping address out of the HTML and fills a
shipping-label form with it. It then writes a CSV with one row per order, under a fixed
sender ("ship from") block. A second page counts the ASINs (Amazon product ids) found in
pasted order text.

This project models the logic behind those routes:

- **`utils/html_parser.py`, `extract_shipping_info`.** Five strategies are tried in a fixed
  order, and the first one that yields a record decides the answer:
  1. buyer-address spans, with a walk up the tree for the order number;
  2. table rows;
  3. labelled form inputs, with `parse_combined_field` for values that look combined;
  4. bare address divs;
  5. a free-text fallback, `extract_address_components`.

  One record comes back as a bare dictionary, several as a list, and none as `None`.
  Every regular expression is a hand-written matcher with Python `re.search` semantics
  (module `Patterns`). Each matcher is proved against an independent description of its
  pattern: what it finds is a match, no match starts earlier, and it finds one wherever
  the pattern matches.
- **`local_app.py`.** The stand-alone copy of the tool, with three parts:
  - the line-based `parse_address_from_parts`;
  - the `split('#')` rule for order ids;
  - three extraction passes with their own emission gates.
- **Both applications' `generate_csv` and `store_addresses`.** The CSV is built as 26
  parallel column lists, one entry per address. Each row's package dimensions follow a
  per-row rule, and the web application also writes the form's dimensions back into the
  current stored address. Each session is a class whose address list the routes replace.
- **`app.py`, `extract_asins` and `extract_asins_advanced`.** These count ASIN tokens, or
  sum quantities per ASIN, and sort the result by count or quantity, largest first.

The DOM is not modelled. Each strategy takes the views it queries as input:
- span texts;
- the tags and links on the way up from an element;
- form values;
- div texts;
- the page text.

Routes take the request form and the session contents as parameters. Loops that append,
walk or accumulate are methods. Each is proved equal to a specification function, and the
properties are proved about that function.

Some behaviours of the code are worth knowing:

- The city/state/ZIP pattern `([A-Za-z\s]+),\s*([A-Z]{2})\s*(\d{5}(?:-\d{4})?)` needs a
  comma. A line such as `Springfield IL 62704` gives no city, state or ZIP
  (`CombinedField.CombinedCsz`, `AddressComponents.ComponentsCsz`).
- The street pattern's optional suffix group never adds anything, because the greedy
  `[A-Za-z\s]+` has already consumed it (`Patterns.StreetAt`).
- In `parse_combined_field`, the digit search inside step 5 can never succeed. Step 5 then
  always splits the words in half (`CombinedField.LastResortOnLeft`).
- With exactly five lines and a digit-free third line, `parse_address_from_parts` ignores the
  fourth line (`LocalApp.FiveLinesIgnoreFourth`).
- Dimensions that `generate_csv` writes back into the session are never read by a later
  request (`AppCsv.WriteBackUnread`).

## Model

| member | source | states |
|---|---|---|
| HtmlParser.FirstOrderLink | utils/html_parser.py:42-43 | the index of the first `<a>` whose href contains "/order/"; no earlier link qualifies |
| HtmlParser.LinkOrderIdSound | utils/html_parser.py:42-46 | a row's order id is '' or an order number `ddd-ddddddd-ddddddd` found in the stripped text of the row's first order link |
| HtmlParser.RowFrom | utils/html_parser.py:35-40 | the walk up stops at the first `<tr>` among the span and its eight nearest ancestors, or finds none of them is a `<tr>` |
| HtmlParser.WalkToRow | utils/html_parser.py:35-40 | the loop of at most eight parent steps finds the same row as the recursive definition |
| HtmlParser.SpanOrderIdSound | utils/html_parser.py:31-46 | a buyer span's order id is '' or an order number from the first order link of the nearest `<tr>` at most eight steps up |
| HtmlParser.CleanTexts | utils/html_parser.py:68-74 | no more texts are kept than there were spans |
| HtmlParser.CollectTexts | utils/html_parser.py:68-74 | the span loop keeps the stripped non-blank texts with "<br>" removed, in order |
| HtmlParser.CleanTextsKeepsClean | utils/html_parser.py:68-74 | texts that are already stripped, non-empty and free of "<br>" all come through unchanged |
| HtmlParser.CleanTextsDropsBlank | utils/html_parser.py:69-71 | whitespace-only span texts are all dropped |
| HtmlParser.FillRecord | utils/html_parser.py:52-94 | the record filled field by field: text 0 is the name, text 1 the street, city/state/ZIP come from texts 2 onward joined by spaces |
| HtmlParser.FilledShape | utils/html_parser.py:76-99 | a record passing the gate came from at least three texts; its name and street are texts 0 and 1; state and ZIP have the pattern's shape; the city is stripped; phone, company and street 2 are empty |
| HtmlParser.SpanRecordOf | utils/html_parser.py:49-94 | a buyer span without an address div yields no record; otherwise the filled record, tagged with the span's order id |
| HtmlParser.Passing | utils/html_parser.py:96-99 | a record is kept exactly when name, street, city, state and ZIP are all non-empty, and it is kept unchanged |
| HtmlParser.Gather | utils/html_parser.py:29-99 | a strategy keeps at most one record per element it visits |
| HtmlParser.AppendIfComplete | utils/html_parser.py:97-99 | appends the record exactly when it passes that gate |
| HtmlParser.GatherStep | utils/html_parser.py:29-99 | one more element adds its record at the end, if the record passes the gate |
| HtmlParser.GatherAppend | utils/html_parser.py:29-99 | gathering is compositional: the records of `xs + ys` are those of `xs` followed by those of `ys` |
| HtmlParser.GatherFrom | utils/html_parser.py:29-99 | every gathered record passed the gate and is the record of some input element |
| HtmlParser.GatherComplete | utils/html_parser.py:97-99 | every record of the span, row and bare-div strategies has all five address fields |
| HtmlParser.GatherSpans | utils/html_parser.py:29-99 | the buyer-span loop gathers exactly the records passing the gate, in document order |
| HtmlParser.RowRecordOf | utils/html_parser.py:117-164 | a row without an address div yields no record; otherwise the filled record, tagged with the row's order id |
| HtmlParser.GatherRows | utils/html_parser.py:108-169 | the row loop gathers exactly the row records passing the gate, in order |
| HtmlParser.MergeOnlyFills | utils/html_parser.py:213-235 | copying parsed parts never empties a field; each field is its old value or the parsed part; phone, company, street 2 and order id stay untouched; a Street1To parse keeps an existing name |
| HtmlParser.FillFormKeepsName | utils/html_parser.py:226-238 | fields other than ToName never take a name away |
| HtmlParser.FillFormKeepsStreet | utils/html_parser.py:230-238 | fields visited after Street1To never change the street |
| HtmlParser.FieldOrderHeads | utils/html_parser.py:178-187 | ToName and Street1To are visited first and only once |
| HtmlParser.FillFormCons | utils/html_parser.py:205-238 | the record is filled field by field in visiting order |
| HtmlParser.PlainNameKept | utils/html_parser.py:236-242 | a non-empty ToName value that does not look combined is the name of the single form record |
| HtmlParser.PlainStreetKept | utils/html_parser.py:223-242 | a non-empty plain Street1To value is the street of the single form record, when ToName is not combined |
| HtmlParser.FillFormUnchanged | utils/html_parser.py:206-208 | fields whose values are empty leave the record unchanged |
| HtmlParser.EmptyFormNothing | utils/html_parser.py:191-242 | a form with no element, or only empty values, yields no record |
| HtmlParser.ReadForm | utils/html_parser.py:191-242 | the form loop yields the form strategy's records |
| HtmlParser.FormGate | utils/html_parser.py:241-242 | a form record is kept only when it has a name or a street |
| HtmlParser.RStripChars | utils/html_parser.py:273 | `rstrip('<br>')` as written: the result is a prefix of the input that does not end in '<', 'b', 'r' or '>' |
| HtmlParser.RStripBrEatsLetters | utils/html_parser.py:273 | as written, "Weber" becomes "Webe" and "12 Oak Dr" becomes "12 Oak D"; the suffix removal keeps both |
| HtmlParser.RStripBrShortens | utils/html_parser.py:276 | as written, any text ending in 'b' or 'r' loses at least one character |
| HtmlParser.RemoveBrSuffix | utils/html_parser.py:273-276 | the corrected suffix removal strips a trailing "<br>" and leaves every other text unchanged |
| HtmlParser.RemoveBrSuffixInverse | utils/html_parser.py:273-276 | the suffix removal undoes appending "<br>" |
| HtmlParser.OrderParent | utils/html_parser.py:294-302 | the first of the five nearest ancestors that has an order link; no nearer one has one |
| HtmlParser.FindOrderElement | utils/html_parser.py:290-310 | the loop of at most five parent steps finds the order id of the nearest ancestor with an order link |
| HtmlParser.OrderParentFrom | utils/html_parser.py:294-302 | from any step of the walk, the first ancestor with an order link; none before it has one, and None means none of the five has one |
| HtmlParser.DivRecordOf | utils/html_parser.py:253-310 | the bare-div record is built field by field |
| HtmlParser.DivRecordShape | utils/html_parser.py:271-313 | a kept bare-div record has at least two unclassed spans; its name is the first span stripped, less one trailing "<br>" (the corrected removal of the Findings row); state and ZIP have the pattern's shape; its order id is '' or an order number |
| HtmlParser.GatherDivs | utils/html_parser.py:249-314 | the bare-div loop gathers exactly the div records passing the gate, in order |
| HtmlParser.TextGate | utils/html_parser.py:324-325 | the free-text record is returned only when it has a name and a street |
| HtmlParser.Stages | utils/html_parser.py:16-328 | there are five strategies, listed in the order they are tried |
| HtmlParser.FirstStageSpec | utils/html_parser.py:101-328 | the answer holds exactly the records of the first strategy that yields any; it is None exactly when no strategy yields a record |
| HtmlParser.FirstStageKeeps | utils/html_parser.py:101-328 | a property of every strategy's records holds of the answer's records |
| HtmlParser.CascadeGate | utils/html_parser.py:97-325 | given each strategy's own gate, every answer record has a name or a street |
| HtmlParser.ExtractGate | utils/html_parser.py:5-332 | every record `extract_shipping_info` returns has a name or a street |
| HtmlParser.ExtractShippingInfo | utils/html_parser.py:5-332 | early returns after each strategy give the cascade's answer; an unparseable document gives None |
| Shipping.Shape | utils/html_parser.py:102-103 | one record comes back bare and two or more as a list, with nothing lost or reordered; none gives None |
| Shipping.Maybe | utils/html_parser.py:97-99 | a found record is a one-element list and a missing one the empty list |
| Shipping.BlankWithOrder | utils/html_parser.py:52-62 | the fresh record has every address field empty and carries the given order id |
| Patterns.RunEndAll | utils/html_parser.py:88 | a maximal character-class run (`[A-Za-z\s]+`, `\s*`, `\d+`) holds only characters of the class |
| Patterns.RunEnd | utils/html_parser.py:88 | a greedy character-class run ends at the end of the text or at the first character outside the class |
| Patterns.CszAt | utils/html_parser.py:88 | a city/state/ZIP match tried at a start lies inside the text, with its groups in order |
| Patterns.CszAtSound | utils/html_parser.py:88-89 | what the matcher finds is a match of the city/state/ZIP pattern, and it takes the `-dddd` extension whenever one follows |
| Patterns.CszAtRuns | utils/html_parser.py:88 | group 1 is letters and whitespace, and only whitespace separates the comma, state and ZIP |
| Patterns.CszAtComplete | utils/html_parser.py:88-89 | wherever the pattern matches, the matcher finds a match at that start with the same city and state and a ZIP at least as long |
| Patterns.CszSearchFrom | utils/html_parser.py:89 | the search tried from a position returns the matcher's match at a start no earlier |
| Patterns.CszSearch | utils/html_parser.py:89 | a match found lies inside the text |
| Patterns.CszSearchFromFirst | utils/html_parser.py:89 | no match starts before the one the search finds |
| Patterns.CszSearchSound | utils/html_parser.py:89 | `re.search` returns a pattern match with no match starting earlier, or None when no position matches |
| Patterns.CszGroups | utils/html_parser.py:92-94 | in any match the city is letters and whitespace, the state two capitals and the ZIP five digits with an optional `-dddd`, and the text holds a comma |
| Patterns.StreetAt | utils/html_parser.py:363 | a street match starts with digits, then whitespace, then letters |
| Patterns.StreetAtSound | utils/html_parser.py:363 | what the matcher finds matches `\d+\s+[A-Za-z\s]+` and is followed by no letter, so the optional suffix adds nothing |
| Patterns.StreetAtComplete | utils/html_parser.py:363 | wherever the street pattern matches, the matcher finds the longest match at that start |
| Patterns.StreetSearchFrom | utils/html_parser.py:363 | the search returns the matcher's street match at a start no earlier than the position |
| Patterns.StreetSearch | utils/html_parser.py:363 | a street match found starts with digits and ends inside the text |
| Patterns.StreetSearchFromFirst | utils/html_parser.py:363 | no street match starts before the one found |
| Patterns.StreetSearchSound | utils/html_parser.py:363-365 | the search returns a street match with none earlier, or None when none exists |
| Patterns.OrderIdSearchFrom | utils/html_parser.py:44 | the search returns the leftmost position of a `\d{3}-\d{7}-\d{7}` match |
| Patterns.FindOrderId | utils/html_parser.py:44-46 | the order number found has the shape `ddd-ddddddd-ddddddd` and occurs in the text |
| Patterns.ContainsSlice | utils/html_parser.py:44-46 | every slice of a text occurs in the text |
| Patterns.OrderIdAfterDigitFreePrefix | utils/html_parser.py:44-46 | an order number after digit-free text is the one found |
| Patterns.CapWordAt | utils/html_parser.py:435 | a capitalised word is at least two characters long |
| Patterns.CapWords | utils/html_parser.py:435 | the greedy run of capitalised words starts at the given position, stays inside the text and respects the repetition bound |
| Patterns.CapWordsSound | utils/html_parser.py:435 | the words found are capitalised words separated by whitespace gaps |
| Patterns.CapWordsComplete | utils/html_parser.py:435 | every run of at most `limit` capitalised words separated by whitespace is a prefix of the greedy words found at its start, so the greedy run is the longest one the repetition bound allows |
| Patterns.CapWordsChain | utils/html_parser.py:435 | every chain of scan steps (word found at its start, maximal whitespace to the next word) is a prefix of the greedy words |
| Patterns.ChainOfRun | utils/html_parser.py:435 | a run of capitalised words is a chain of scan steps: each `[a-z]+` tail and each `\s+` gap is maximal |
| Patterns.NamePrefixEnd | utils/html_parser.py:386 | the end of the capitalised-name prefix lies inside the text |
| Patterns.CoveredIsCapName | utils/html_parser.py:369 | two or more such words cover a capitalised name: only letters and whitespace, upper case first |
| Patterns.WordsOrdered | utils/html_parser.py:435 | the words come in text order |
| Patterns.CoveredChar | utils/html_parser.py:435 | every character a run of words covers is a letter or whitespace |
| Patterns.NamePrefixSound | utils/html_parser.py:386-388 | `re.match` of `^([A-Z][a-z]+(?:\s+[A-Z][a-z]+)+)` yields a capitalised name |
| Patterns.NameAt | utils/html_parser.py:435 | a name candidate is two to four capitalised words |
| Patterns.NameSearchFrom | utils/html_parser.py:436 | the search returns the two-or-more-word candidate at a start no earlier than the position |
| Patterns.NameSearch | utils/html_parser.py:436 | a candidate is two to four words in text order, each of at least two characters, inside the text |
| Patterns.NameSearchFromFirst | utils/html_parser.py:436 | no name candidate starts before the one found |
| Patterns.NameSearchSound | utils/html_parser.py:435-436 | the search returns a run of two to four capitalised words; no run of two or more such words starts earlier; every run of up to four words at the same start is a prefix of it (the greedy longest); None exactly when the text has no run of two capitalised words |
| Patterns.NameAtComplete | utils/html_parser.py:435-436 | a run of two to four capitalised words makes a candidate at its start that extends it |
| Patterns.NameSearchComplete | utils/html_parser.py:435-436 | any run of two or more capitalised words makes the search succeed at that run's start or earlier |
| Patterns.CityLikeFromSpec | utils/html_parser.py:439 | the `name + ',\s*[A-Z]{2}'` search succeeds exactly when the name occurs somewhere followed by a comma, optional whitespace and two capitals |
| Patterns.PhoneBodyAt | utils/html_parser.py:457 | a body match tried at a position is at least ten characters and ends in four digits; `Patterns.PhoneBodyAtSound` and `Patterns.PhoneBodyAtComplete` tie it to the pattern |
| Patterns.PhoneAt | utils/html_parser.py:457 | a phone match tried at a start is at least ten characters and ends in four digits; `Patterns.PhoneAtSound` and `Patterns.PhoneAtComplete` tie it to the pattern |
| Patterns.PhoneSearchFrom | utils/html_parser.py:457-458 | the match returned is the one `PhoneAt` finds at a start no earlier than the position |
| Patterns.PhoneSearch | utils/html_parser.py:457-458 | a phone match found is at least ten characters long and ends in four digits; `Patterns.PhoneSearchSound` ties it to the pattern |
| Patterns.AfterCodeAt | utils/html_parser.py:457 | `\+\d{n}\s*` followed by a body gives a match at least 11 + n characters long ending in four digits |
| Patterns.PhoneSearchFromFirst | utils/html_parser.py:457-458 | no position between the start and the match found has a phone match |
| Patterns.PhoneBodyAtSound | utils/html_parser.py:457 | what the body matcher finds matches `(?:\(\d{3}\)|\d{3})[-.\s]?\d{3}[-.\s]?\d{4}` (the independent `IsPhoneBody`) |
| Patterns.PhoneBodyAtComplete | utils/html_parser.py:457 | wherever the body pattern matches, the body matcher returns exactly that match: it starts with `(` or a digit and is the only one there |
| Patterns.AfterCodeSound | utils/html_parser.py:457 | a body found after `+` and n code digits is a match of the whole pattern with an n-digit country code |
| Patterns.AfterCodeComplete | utils/html_parser.py:457 | a country code, its whitespace and a body are found by the matcher: the `\s*` run is maximal |
| Patterns.PhoneAtSound | utils/html_parser.py:457 | what `PhoneAt` finds is a match of the whole phone pattern (the independent `IsPhoneMatch`) |
| Patterns.PhoneAtComplete | utils/html_parser.py:457 | wherever the phone pattern matches, `PhoneAt` finds a match there: the same one, unless a one-digit country code was used and the two-digit code that `\d{1,2}` tries first also leads to a match |
| Patterns.PhoneSearchSound | utils/html_parser.py:457-458 | `re.search` of the phone pattern: the match found is a pattern match, no pattern match starts earlier, and None exactly when the pattern matches nowhere |
| CombinedField.FirstNumericFrom | utils/html_parser.py:375-376 | the first word at or after the start position that begins with a digit, or the end |
| CombinedField.FirstNumericUnique | utils/html_parser.py:375-376 | that index is determined by its two defining facts |
| CombinedField.LeftOfCsz | utils/html_parser.py:360 | later steps see only text from before the city/state/ZIP match |
| CombinedField.PyPrefix | utils/html_parser.py:393 | Python's clamping slice `s[:n]` |
| CombinedField.FindStreet | utils/html_parser.py:363-382 | steps 2 and 3: a street match and a name only if the whole prefix is capitalised words, else the digit fallback |
| CombinedField.DigitFallback | utils/html_parser.py:373-382 | the step-3 loop computes the digit-fallback split of the text |
| CombinedField.NumericParts | utils/html_parser.py:374-382 | the loop over the words computes the split at the first word that starts with a digit |
| CombinedField.SplitRemaining | utils/html_parser.py:393-408 | step 5 on the remaining text |
| CombinedField.SplitParts | utils/html_parser.py:394-408 | step 5's loop and its split in half |
| CombinedField.ParseCombinedField | utils/html_parser.py:334-410 | the five steps, with the dictionary updated in place, give the parse |
| CombinedField.CszFieldsKept | utils/html_parser.py:352-410 | steps 2 to 5 never change the city, state and ZIP found in step 1 |
| CombinedField.CszFieldsShape | utils/html_parser.py:353-357 | state and ZIP are empty exactly when no match exists; otherwise they have the pattern's shape and the text holds a comma; the city is stripped letters and whitespace |
| CombinedField.CombinedCsz | utils/html_parser.py:353-360 | the parse's city, state and ZIP have that shape, and all three are empty when the text has no comma |
| CombinedField.CapNameStripped | utils/html_parser.py:369-370 | a capitalised name is its own strip |
| CombinedField.FullNameIsCapName | utils/html_parser.py:369 | a whole-string match of the two-or-more-words pattern, stripped, is a capitalised name |
| CombinedField.StreetMatchName | utils/html_parser.py:363-388 | after a street match, the street starts with a digit and the name is empty or two or more capitalised words |
| CombinedField.NoLastResort | utils/html_parser.py:391 | step 5 changes nothing once a street is found |
| CombinedField.StreetStep | utils/html_parser.py:363-370 | step 2 alone: the street starts with a digit and the name is empty or capitalised words |
| CombinedField.PrefixNameCap | utils/html_parser.py:385-388 | step 4's name is empty or a capitalised name |
| CombinedField.StreetFound | utils/html_parser.py:363-365 | a street from the street pattern starts with its house number |
| CombinedField.JoinedWords | utils/html_parser.py:379-381 | joining words with spaces and stripping gives back a string whose words are those words |
| CombinedField.JoinedSlice | utils/html_parser.py:379-381 | the same for a slice of the words |
| CombinedField.FallbackStreet | utils/html_parser.py:380-381 | step 3's street is non-empty, holds at most five words and starts with the numeric word |
| CombinedField.FallbackName | utils/html_parser.py:378-379 | step 3's name is the words before the numeric word, none of which starts with a digit |
| CombinedField.FallbackSplit | utils/html_parser.py:375-382 | step 3's name and street are consecutive words of the text |
| CombinedField.NumericSplitWords | utils/html_parser.py:374-382 | step 3 on a list of words: consecutive name and street, the street at most five words and starting with a digit |
| CombinedField.NumericSplitEmpty | utils/html_parser.py:373-382 | step 3 finds no street exactly when no word begins with a digit, and then no name either |
| CombinedField.DigitFallbackEmpty | utils/html_parser.py:373-382 | the same on the text, including the text with no digit at all |
| CombinedField.DigitFallbackWords | utils/html_parser.py:373-382 | step 3's name and street are consecutive words of the text |
| CombinedField.WordsNoDigit | utils/html_parser.py:373 | a text without digits has no word that starts with a digit |
| CombinedField.RemainingIsLeft | utils/html_parser.py:393 | step 5's `text[:start].strip()` is the text step 1 left |
| CombinedField.NoStreetNoNumeric | utils/html_parser.py:373-382 | when steps 2 and 3 find no street, no word starts with a digit |
| CombinedField.LastResortPlain | utils/html_parser.py:404-408 | with three or more digit-free words, the name is the first `max(1, n//2)` words and the street the rest, both non-empty |
| CombinedField.HalvesOfWords | utils/html_parser.py:406-408 | the same on a list of words |
| CombinedField.NoNumericSplitsInHalf | utils/html_parser.py:398-408 | without a numeric word, step 5 cuts the words in the middle |
| CombinedField.LastResortOnLeft | utils/html_parser.py:390-408 | when step 5 applies, it splits the whole text left of the city; no word there starts with a digit, so the loop at 398-402 never sets anything |
| AddressComponents.NameCandidate | utils/html_parser.py:435-436 | a name candidate is at least five characters |
| AddressComponents.NameCandidateSound | utils/html_parser.py:435-436 | the candidate is a capitalised name; there is none exactly when the text holds no run of two capitalised words separated by whitespace, and then no position starts a candidate |
| AddressComponents.Components | utils/html_parser.py:422-462 | company, second street line and order id are never set |
| AddressComponents.ComponentsName | utils/html_parser.py:434-440 | ToName is the first candidate, dropped exactly when the candidate occurs followed by ", XX"; a kept name is capitalised words |
| AddressComponents.ComponentsStreet | utils/html_parser.py:443-446 | Street1To is the leftmost street match, unstripped, and empty exactly when there is none |
| AddressComponents.ComponentsCsz | utils/html_parser.py:449-454 | city, state and ZIP come from one match, only when the text has a comma; the state is two capitals, the ZIP five digits with an optional extension, the city stripped |
| AddressComponents.ComponentsPhone | utils/html_parser.py:457-460 | PhoneTo is the whole leftmost match of the phone pattern, at least ten characters and ending in four digits; no pattern match starts earlier; PhoneTo is empty exactly when the pattern matches nowhere |
| LocalApp.SetCityStateZip | local_app.py:130-148 | the last line touches no key besides CityTo, StateTo and ZipTo |
| LocalApp.SetStreets | local_app.py:150-161 | both street lines are always set, and no key besides the street lines and the company is touched |
| LocalApp.ParseAddressFromParts | local_app.py:116-166 | empty exactly for fewer than three lines; otherwise name, both street lines and an empty phone are present |
| LocalApp.ParseName | local_app.py:127 | ToName is the first line, stripped |
| LocalApp.ParseCsz | local_app.py:129-148 | city, state and ZIP are exactly what the stripped last line sets |
| LocalApp.CszWithComma | local_app.py:133-141 | with a comma, the city is the stripped text before the first comma; state and ZIP are present exactly when two or more words follow, and are the first two |
| LocalApp.CommaCity | local_app.py:134-135 | with a comma, the city is the stripped text before it, which holds no comma |
| LocalApp.CommaStateZip | local_app.py:138-141 | state and ZIP are the first two words after the comma, if there are two |
| LocalApp.CommaBranch | local_app.py:133-141 | the record a last line with a comma gives, field by field |
| LocalApp.StateZipOfWords | local_app.py:140-141 | stripping a word changes nothing |
| LocalApp.CityBeforeComma | local_app.py:134-135 | the city before the first comma holds no comma |
| LocalApp.ParseCszWithComma | local_app.py:133-141 | the comma case for the whole parse |
| LocalApp.CszWithoutComma | local_app.py:143-148 | without a comma and with two or more words, state and ZIP are the last two words; the city joins the rest and splits back into them; with fewer words none is set |
| LocalApp.ParseCszWithoutComma | local_app.py:143-148 | the no-comma case for the whole parse |
| LocalApp.ParseStreets | local_app.py:150-161 | three lines: street 1 is line 2 and street 2 empty; four or more: lines 2 and 3; five or more with a digit-free line 3: it is the company, and street 2 is line 4 only with six or more lines |
| LocalApp.StreetsSet | local_app.py:150-161 | the same street rules on any record |
| LocalApp.FiveLinesIgnoreFourth | local_app.py:159-161 | with five lines and a digit-free third line, the fourth line never affects the record |
| LocalApp.ParseRoundTrip | local_app.py:116-166 | the lines name, street, street 2, "City, ST ZIP" parse back into exactly those fields and an empty phone |
| LocalApp.SameEntries | local_app.py:121-164 | a record with exactly these entries is this dictionary |
| LocalApp.CszLineRoundTrip | local_app.py:133-141 | a "City, ST ZIP" line splits back into its city, state and ZIP |
| LocalApp.FirstAt | local_app.py:134 | the first comma of `city + "," + rest` is right after a comma-free city |
| LocalApp.TwoWords | local_app.py:138 | `" ST ZIP".split()` is `[ST, ZIP]` |
| LocalApp.ParseKeys | local_app.py:121-164 | the record holds no key besides the eight address fields |
| LocalApp.OrderIdAfterHash | local_app.py:51 | the order id is no longer than the text and holds no '#' |
| LocalApp.StripKeepsOut | local_app.py:51 | stripping adds no character |
| LocalApp.OrderIdAfterLastHash | local_app.py:84 | the id is the stripped text after the last '#'; text without '#' is its own id, stripped |
| LocalApp.AddressLines | local_app.py:72-75 | the kept lines are non-empty and stripped, and there are no more of them than spans |
| LocalApp.CollectLines | local_app.py:72-75 | the span loop keeps the stripped non-blank texts, in order |
| LocalApp.AddressLinesKeep | local_app.py:73-75 | spans that are all non-blank are all kept, stripped; spans that are all blank give no line |
| LocalApp.SectionRecordOf | local_app.py:61-88 | the section record is filled field by field, as the section pass does |
| LocalApp.SectionGate | local_app.py:65-88 | a section is emitted exactly when its address div holds three or more non-blank lines; name and street are lines 1 and 2; the order id is present exactly when an "Order #" string precedes it |
| LocalApp.UpdateWithLines | local_app.py:77-79 | `address.update(parsed)` over a name-only record: with three lines the parsed name and street win, with fewer the record is unchanged |
| LocalApp.DivGate | local_app.py:44-58 | a shipping-address div is emitted exactly when its stripped text has three or more lines, and then it carries an order id |
| LocalApp.BlockGate | local_app.py:95-112 | a block is emitted exactly when it has three or more lines and its last line has a comma or two words, and then it is tagged with the nearby order id |
| LocalApp.Collect | local_app.py:44-58 | no more records than inputs |
| LocalApp.CollectFrom | local_app.py:44-112 | every collected record is the record of one input |
| LocalApp.CollectStep | local_app.py:44-58 | one more input adds its record at the end |
| LocalApp.CollectEmpty | local_app.py:44-112 | nothing is collected exactly when every input is rejected |
| LocalApp.CollectSections | local_app.py:61-88 | the section loop collects the emitted section records, in order |
| LocalApp.CollectAll | local_app.py:44-112 | the div and block loops collect every emitted record, in order |
| LocalApp.ExtractShippingInfo | local_app.py:29-114 | sections, or divs when there are no sections, then blocks only when that found nothing |
| LocalApp.ExtractLocalRecords | local_app.py:29-114 | every returned record has a name, both street lines and a phone; without sections every record has an order id |
| LocalApp.SectionRecordsHave | local_app.py:65-88 | every record of the section pass has a name, both street lines and a phone |
| LocalApp.DivRecordsHave | local_app.py:44-58 | every record of the shipping-address div pass has a name, both street lines, a phone and an order id |
| LocalApp.BlockRecordsHave | local_app.py:95-112 | every record of the generic-block pass has a name, both street lines, a phone and an order id |
| LocalApp.ExtractLocalCascade | local_app.py:40-91 | on a page with sections, the divs are never read; when the sections yield a record the blocks are never read; when none does the result is the block records |
| Split.SplitOnJoin | local_app.py:54 | `split('\n')` pieces hold no separator, and joining them back gives the text |
| Split.SplitOn | local_app.py:54 | `split` always gives at least one piece |
| Split.SplitOnLast | local_app.py:51 | the last piece of `split('#')` is the suffix after the last '#' |
| Split.LastPieceAfterLast | local_app.py:51 | the last piece of the split is the text after the last separator |
| Split.AfterLast | local_app.py:51 | the text after the last separator is no longer than the text |
| Split.AfterLastSpec | local_app.py:51 | that text is a separator-free suffix, preceded by the separator unless it is the whole text |
| Split.LastPieceIs | local_app.py:84 | a separator-free suffix that is the whole text or follows a separator is the last piece |
| ShippingCsv.HeaderWidth | app.py:142-169 | the CSV has 26 columns |
| ShippingCsv.FormDims | app.py:172-176 | the dimensions come from the form; the description is blank only when the form sent a blank one, since a missing one becomes "misc" |
| ShippingCsv.RecipientHeader | app.py:150-159 | the recipient columns carry the record keys' names |
| ShippingCsv.Row | app.py:216-241 | one value per column |
| ShippingCsv.RowSender | app.py:216-224 | "No" is the order id or '', and columns 1 to 8 are the sender block |
| ShippingCsv.RowRecipient | app.py:225-232 | each recipient column is the address's value under that column's name, or '' |
| ShippingCsv.RowPackage | app.py:233-241 | the dimension columns hold the row's dimensions; Ref01, Ref02, optional_file_name and optional_amazon_order_id are always '' |
| ShippingCsv.EmptyColumns | app.py:142-169 | every column list starts empty |
| ShippingCsv.AppendRow | app.py:216-241 | each column gets exactly one value appended |
| ShippingCsv.Tabulate | app.py:179-241 | every column ends with one entry per row |
| ShippingCsv.TabulateSpec | app.py:179-241 | the columns are the rows transposed |
| ShippingCsv.Rows | app.py:179-241 | row `i` is built from address `i` with its own dimensions |
| ShippingCsv.Table | app.py:142-241 | the table has the header's 26 columns |
| ShippingCsv.TableEnds | app.py:179-241 | no address gives empty columns, and the whole prefix gives the whole table |
| ShippingCsv.TableCells | app.py:179-241 | entry `i` of every column is value `j` of address `i`'s row, and all columns have one entry per address |
| ShippingCsv.TableStep | app.py:215-241 | one loop iteration appends the next address's row |
| ShippingCsv.DownloadName | app.py:251-256 | the name `generate_csv` picks: merged, per-order or plain |
| ShippingCsv.FileNameCases | app.py:251-256 | "shipping_orders_merged.csv" exactly when merging several addresses; "shipping_order.csv" exactly for a single file with an empty id; otherwise the id can be read back from the name |
| ShippingCsv.SingleFromForm | app.py:104-139 | the single record has exactly the recipient, order-id and dimension keys |
| ShippingCsv.Batch | app.py:101-139 | a batch always holds at least one address |
| ShippingCsv.SingleFromFormSpec | app.py:104-139 | the single record stores the form's dimensions and the form's recipient fields and order id |
| LocalCsv.BatchDims | local_app.py:300-315 | one dimension set per address, row `i` by the rule |
| LocalCsv.FillColumns | local_app.py:299-343 | the loop builds the table of the batch with each row's dimensions |
| LocalCsv.DimsOf | local_app.py:301-315 | merging or same dimensions over several addresses gives the form's dimensions; otherwise the address's own, '' or "misc" by default |
| LocalCsv.Session.constructor | local_app.py:222 | a missing address list reads as empty |
| LocalCsv.Session.Clear | local_app.py:168-173 | the index page drops the stored addresses |
| LocalCsv.Session.StoreAddresses | local_app.py:175-183 | the posted list is stored unchanged |
| LocalCsv.Session.GenerateCsv | local_app.py:212-358 | the columns and file name of the request; the session is left unchanged |
| LocalCsv.SingleOrderFromForm | local_app.py:222-260 | without merging, or with nothing stored, one row holds the form's recipient, order id and dimensions, in the per-order file |
| LocalCsv.MergedUseFormDims | local_app.py:302-308 | merging several addresses puts every stored address in order, all with the form's dimensions, in the merged file |
| LocalCsv.MergeOneKeepsStoredDims | local_app.py:309-315 | merging a single stored address keeps its own dimensions, even with same dimensions ticked |
| LocalCsv.StoreThenGenerate | local_app.py:175-343 | after storing and merging, entry `i` of the name and street columns is address `i`'s |
| AppCsv.Marked | app.py:57-59 | storing keeps the number of addresses |
| AppCsv.MarkedSpec | app.py:57-59 | exactly the first stored address is marked "true" and the rest "false"; no other field changes |
| AppCsv.BatchDims | app.py:179-213 | one dimension set per address, row `i` by the rule |
| AppCsv.WriteBack | app.py:201-206 | the address afterwards holds exactly the given dimensions and is otherwise unchanged |
| AppCsv.WrittenBack | app.py:193-206 | the loop never adds or removes an address |
| AppCsv.WrittenBackAt | app.py:181-206 | outside shared dimensions, the current address gets the form's dimensions written in; every other address is untouched |
| AppCsv.AfterGenerate | app.py:101-206 | stored addresses change only when the batch came from the session; then exactly the current ones get the form's dimensions |
| AppCsv.Session.constructor | app.py:101 | a missing address list reads as empty |
| AppCsv.Session.Clear | app.py:34-38 | the index page drops the stored addresses |
| AppCsv.Session.StoreAddresses | app.py:51-62 | the posted list is stored with its current-address marks |
| AppCsv.Session.GenerateCsv | app.py:92-256 | the columns and file name of the request, and the stored list after the write-back |
| AppCsv.FillColumns | app.py:179-241 | the loop builds the table of the batch and writes the form's dimensions into the current address |
| AppCsv.DimsOf | app.py:180-213 | same dimensions over several addresses, or the current address: the form's dimensions; otherwise the stored ones, each defaulting to the form's; the current flag is the write-back case |
| AppCsv.StoreThenMergeDims | app.py:57-213 | after storing and merging, the first address takes the form's dimensions and the others keep theirs, unless same dimensions is ticked |
| AppCsv.WriteBackSpec | app.py:201-206 | the write-back stores the form's dimensions in exactly the current addresses, which stay current; nothing else changes |
| AppCsv.NoMergeIgnoresSession | app.py:101-139 | without merging, the file does not depend on the session, the session is unchanged, and the single row uses the form's dimensions |
| AppCsv.WriteBackUnread | app.py:193-213 | a later request builds the same file from the updated list as from the list before it |
| AppCsv.AfterRefreshes | app.py:201-206 | one request only changes the dimensions of current addresses |
| AppCsv.CsvIgnoresRefresh | app.py:179-256 | such a change never changes any later file |
| AppCsv.SameRecipient | app.py:216-232 | records that differ only in dimension keys fill the same row |
| Asin.Find | app.py:280-281 | every token found is ten upper-case letters or digits; `Asin.FindFrom` proves the scan equal to the reference `TokensFrom` |
| Asin.FindAsins | app.py:280-281 | every token is ASIN-shaped, and the tokens are exactly the ten characters at every position where `\b[A-Z0-9]{10}\b` matches, in order of position |
| Asin.FindFrom | app.py:280-281 | the scan from any position, told whether a word character precedes it, finds exactly the tokens the reference lists from that position |
| Asin.FindAtToken | app.py:280-281 | at a token the scan takes its ten characters and resumes after them, behind a word character |
| Asin.FindPastNonToken | app.py:280-281 | where no token starts, the scan moves on by one character |
| Asin.NoTokenInside | app.py:280 | no token starts inside another token |
| Asin.FindComplete | app.py:280-281 | every ten-character `[A-Z0-9]` run with no word character on either side is among the tokens found |
| Asin.TokenInFrom | app.py:280-281 | a token at a position is listed by the reference from any earlier position |
| Asin.FindJoin | app.py:280-281 | ASINs listed with spaces between them are found again, in order and with repeats |
| Asin.JoinLength | app.py:280-281 | such a list is at least ten characters long |
| Asin.NoTokenInsideLongerRun | app.py:280 | a run of eleven or more pattern characters holds no token |
| Asin.CountOfAt | app.py:284 | with distinct keys, each entry holds its key's count |
| Asin.KeyAt | app.py:284 | every entry's key is one of the keys |
| Asin.Bump | app.py:284 | one occurrence adds an entry at most |
| Asin.BumpSpec | app.py:284 | counting an occurrence adds one to that key's count and nothing else |
| Asin.TallySpec | app.py:284 | the counter has one entry per distinct token, holding its multiplicity |
| Asin.TallyKeys | app.py:284 | the counter's keys are the distinct tokens |
| Asin.TallyDistinct | app.py:284 | no key appears twice |
| Asin.TallyCount | app.py:284 | the count of every key is its multiplicity |
| Asin.InsertDesc | app.py:287 | insertion adds one element |
| Asin.SortDesc | app.py:287 | sorting keeps the length |
| Asin.InsertDescSpec | app.py:287 | inserting into a non-increasing list keeps it non-increasing and adds the element |
| Asin.InsertDescPerm | app.py:287 | inserting adds exactly that element |
| Asin.InsertDescBelow | app.py:287 | inserting keeps a common upper bound on the keys |
| Asin.SortDescSpec | app.py:287 | `sorted(..., reverse=True)` gives a non-increasing permutation |
| Asin.SortDescSorted | app.py:287 | the output is non-increasing |
| Asin.SortDescPerm | app.py:287 | the output is a permutation of the input |
| Asin.ExtractAsins | app.py:276-287 | an error exactly for empty text |
| Asin.ExtractAsinsSpec | app.py:276-287 | the result is the counter's entries, most frequent first; each is an ASIN token with its number of occurrences, and every token has an entry |
| Asin.ExtractedCounts | app.py:281-287 | each entry is an ASIN with its positive occurrence count |
| Asin.ExtractedAll | app.py:281-287 | every token found has an entry |
| Asin.IndexIn | app.py:287 | every element of a permutation occurs in the original |
| Asin.KeyIndex | app.py:284 | every key has an entry |
| Asin.CountsOfListedAsins | app.py:276-287 | pasting ASINs separated by spaces counts each as often as it was listed |
| Asin.AddSpec | app.py:329-330 | one loop step sets the ASIN's title to the stripped title and adds the quantity; other ASINs keep theirs |
| Asin.TotalsItem | app.py:326-330 | after the loop an ASIN has an item exactly when matched; its item is the stripped last title and the sum of its quantities |
| Asin.TotalsDistinct | app.py:315 | the accumulated entries have distinct keys |
| Asin.NoTitleNoQty | app.py:326-330 | an unmatched ASIN contributes nothing |
| Asin.ItemAt | app.py:315 | with distinct keys, each entry holds its key's item |
| Asin.EntriesKeys | app.py:315 | listed keys are dictionary keys |
| Asin.EntriesFrame | app.py:329-330 | changing an unlisted key leaves the entries unchanged |
| Asin.EntriesUpdate | app.py:329-330 | updating an existing ASIN in place is one step on the entries |
| Asin.EntriesAppend | app.py:329-330 | a new ASIN is listed at the end with its title and quantity |
| Asin.Accumulate | app.py:326-330 | the defaultdict loop yields the accumulated entries in insertion order |
| Asin.TotalsStep | app.py:326-330 | one more match is one more step |
| Asin.TrackStep | app.py:329-330 | a loop step keeps the dictionary and its key order in step with the entries |
| Asin.Advanced | app.py:303-333 | an error exactly for empty text or no match |
| Asin.ExtractAsinsAdvanced | app.py:299-333 | the two error checks, the loop and the sort give the route's result |
| Asin.AdvancedSpec | app.py:326-333 | one entry per matched ASIN, largest total first; the total is the sum of its quantities and the title the stripped last one |
| Asin.MatchedHasTitle | app.py:329 | every matched ASIN has a last title |
| Asin.ItemKey | app.py:315 | a key with an item has an entry |
| Text.HasDigitSpec | utils/html_parser.py:373 | `re.search(r'\d+', s)` succeeds exactly when some character is a digit |
| Text.StripSpec | local_app.py:127 | `strip()` removes only leading and trailing whitespace |
| Text.Strip | local_app.py:127 | `strip()` never lengthens a text, and its result starts and ends with a non-space |
| Text.StripEmpty | local_app.py:74 | a text strips to empty exactly when it is all whitespace |
| Text.WordsOfJoin | local_app.py:148 | `' '.join` of words splits back into those words |
| Text.WordsOfStrip | local_app.py:138 | `s.strip().split()` has the same words as `s.split()` |
| Text.ContainsAt | local_app.py:49 | a substring found occurs at some position |
| Text.IndexOf | local_app.py:134 | the position where `split(',', 1)` cuts: the first occurrence of the character, or the length when it is absent |
| Text.RemoveAll | utils/html_parser.py:73 | `replace('<br>', '')` never lengthens a text and leaves text without "<br>" unchanged |
| Dicts.Get | local_app.py:311-315 | `d.get(k, default)` |

## Left out

- The HTML parsing and tree queries (`BeautifulSoup`, `find_all`, `find_previous`, `get_text`,
  `parents`). Each strategy takes the texts and links it would read as input. That includes
  which element id matches which form-field pattern (utils/html_parser.py:179-187).
- The generic order-id search over a block's ancestors (local_app.py:102-109). Its result is
  the `nearbyOrderId` input of a block.
- The product pattern of `extract_asins_advanced` (app.py:309-312), a lazy `DOTALL` regular
  expression. Its matches are the input of `Asin.Advanced`.
- The Flask routes, `request`, `jsonify`, `send_file`, `render_template`, `logging`, and the
  500 responses of the exception handlers. The parser's own `except` at
  utils/html_parser.py:330-332 is modelled as the `Unparseable` document.
- How Flask persists the session. The model assumes the session holds whatever the route
  assigned. `AppCsv.Session.GenerateCsv`'s write-back mutates dictionaries inside the stored
  list, and whether Flask saves that change is not modelled. The write-back is never read
  by a later request either way (`AppCsv.WriteBackUnread`).
- The pandas `DataFrame` and `to_csv` serialisation. The model stops at the column lists.
- `download_app`, the save-shopping-list and download routes, `static/js/main.js` and
  `test_extraction.py`: file-system and browser I/O.
- Non-ASCII letters and digits. `\w`, `\d`, `[A-Za-z]` and `isdigit` are ASCII here.
  Whitespace follows Python's `str.isspace` list.
- JSON values that are not strings: stored records are string-to-string dictionaries.
- Asin.SortDescSpec: states that the sort is non-increasing and a permutation, not that
  equal counts keep their first-occurrence order, as Python's stable sort does.
- HtmlParser.DivRecordOf, HtmlParser.GatherDivs, HtmlParser.ExtractShippingInfo: the bare-div
  strategy removes one trailing "<br>" from the name and street (`HtmlParser.RemoveBrSuffix`),
  the corrected behaviour of the Findings row. The code as written strips any trailing '<',
  'b', 'r' and '>' characters, so for spans ending in those letters the modelled answer
  differs from the program's. `HtmlParser.RStripChars` models the code as written.
- HtmlParser.DivRecordShape: states the name with the corrected "<br>" removal, not the
  character-set `rstrip` of utils/html_parser.py:273 and :276.
- Patterns.PhoneBodyAt: its own contract states only the shape of a match. Soundness and
  completeness against the pattern are `Patterns.PhoneBodyAtSound` and
  `Patterns.PhoneBodyAtComplete`.
- Patterns.PhoneAt: its own contract states only the shape of a match. Soundness and
  completeness against the pattern are `Patterns.PhoneAtSound` and `Patterns.PhoneAtComplete`.
- Patterns.PhoneSearch: its own contract states only the shape of a match. Leftmost-ness and
  completeness against the pattern are `Patterns.PhoneSearchSound`.
- Patterns.PhoneSearchFrom: states the match relative to `PhoneAt`. Leftmost-ness is
  `Patterns.PhoneSearchFromFirst`, and the tie to the pattern is `Patterns.PhoneSearchSound`.
- Asin.Find: states only that every token is ASIN-shaped. Completeness of the scan is
  `Asin.FindFrom`, and `Asin.FindAsins` states it for the whole text.
- HtmlParser.ExtractGate: states the gate shared by all strategies. The stricter gate of the
  span, row and bare-div strategies is `HtmlParser.GatherComplete`.

## Findings

| source | as written | input that shows it | evidently intended | confidence | as-written member | corrected member |
|---|---|---|---|---|---|---|
| utils/html_parser.py:273 | `rstrip('<br>')` removes any trailing '<', 'b', 'r' and '>' characters | a name span "Weber" gives ToName "Webe"; a street span "12 Oak Dr" gives "12 Oak D" | remove one trailing "<br>" suffix | not executed | HtmlParser.RStripBrEatsLetters | HtmlParser.RemoveBrSuffixInverse |
