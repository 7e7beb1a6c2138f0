# GiftWishList core, modelled in Dafny

This project models the parts of GiftWishList that decide things: how a
product link becomes wishlist metadata, and how phone numbers, text
messages and verification codes are normalised and checked. In detail:

- the metadata pipeline of `src/lib/url-metadata.ts`:
  - the title, image, price and site-name scrapers over ordered
    regular-expression tables;
  - the JSON-LD price search `findPriceInObject`;
  - `decodeHtmlEntities`;
  - the `fetchUrlMetadata` decision procedure, with its Amazon short-link
    resolution, ASIN lookup, affiliate-URL rewrite and all-null failure;
- the duplicate of that pipeline behind `POST /api/wishlist/fetch-meta`;
- the Amazon helpers of `src/lib/amazon.ts`:
  - ASIN extraction, host sniffing and the affiliate URL;
  - the string assembly of AWS Signature Version 4 (canonical request,
    string to sign, signing key, authorization header);
  - the mapping of a Product Advertising API reply;
- the inbound-SMS handler: splitting a link from its notes, appending
  follow-up notes, and adding an item with a confirmation text;
- the group invitation handler: phone normalisation, the order of its
  rejections, the enrolment transaction and the invitation wording;
- the phone formatters of `src/lib/auth.ts`, the sign-in field and the
  group page;
- the one-time-code field, as a class whose handlers update its state;
- the route gate of `src/middleware.ts`.

Layout:

- Module `Regex` is a small backtracking matcher, enough for the patterns
  the source uses. It handles character classes, greedy and lazy
  quantifiers, one capture group and the `i` flag. The scrapers use it to
  find the leftmost match and the capture that a JavaScript engine would
  report for those patterns.
- Network answers, `JSON.parse`, `toFixed(2)`, SHA-256, HMAC-SHA-256
  and JWT verification are function-typed parameters. The current time
  and the request timestamp are plain value parameters.
- Database reads are inputs. Database writes and outgoing texts are
  returned as a sequence of effects.

Handlers that reassign local state step by step (`fetchUrlMetadata`, the
extractor loops, `extractPriceFromJsonLd`'s `lastIndex` loop, the SMS and
invite handlers) are methods. Each such method is proved equal to a
function of its inputs, and the lemmas state what the source promises
about that function.

## Model

| member | source | states |
|---|---|---|
| Extractors.ExtractTitle | src/lib/url-metadata.ts:96-116 | the title is the trimmed, entity-decoded capture of the first pattern that captures (og:title before `<title>`); it is null exactly when no pattern captures |
| Extractors.AbsoluteImage | src/lib/url-metadata.ts:136-144 | `//x` becomes `https://x`; `/x` is prefixed with the base URL's origin and throws when the base does not parse; anything else is kept; the capture is always the result's suffix |
| Extractors.ExtractImage | src/lib/url-metadata.ts:119-148 | equals the first capturing image pattern, made absolute; null exactly when no pattern captures |
| Extractors.FindPriceRules | src/lib/url-metadata.ts:220-257 | scalars give no price; a string or number `price` is returned as its text, ahead of every other key; without `price`, `offers` or `lowPrice` there is none |
| Extractors.FindPriceWithin | src/lib/url-metadata.ts:220-257 | a price found is `String(v)` of some value `v` inside the parsed document (proved by induction over the tree) |
| Extractors.FirstPriceWithin | src/lib/url-metadata.ts:223-229 | an array's price comes from one of its elements |
| Extractors.BlockPrice | src/lib/url-metadata.ts:200-212 | a JSON-LD block yields a price only after it parses, holds a non-empty price and passes the NaN gate; the price starts with `$` |
| Extractors.JsonLdScriptAdvances | src/lib/url-metadata.ts:197-199 | every match of the global script pattern moves `lastIndex` forward, so the scan ends |
| Extractors.ExtractPriceFromJsonLd | src/lib/url-metadata.ts:195-218 | the `lastIndex` loop returns the price of the first script block that yields one |
| Extractors.ExtractPrice | src/lib/url-metadata.ts:151-193 | a JSON-LD price, when there is one, is returned before any pattern is tried |
| Extractors.ExtractPriceFromPatterns | src/lib/url-metadata.ts:175-192 | the pattern loop returns the cleaned capture of the first pattern whose cleaned capture passes the dollar test; a bare number gets `$` |
| Extractors.PatternPriceHasDollarDigit | src/lib/url-metadata.ts:182-188 | a price from the pattern table contains `$` followed by a digit or a comma |
| Extractors.HostFallback | src/lib/url-metadata.ts:277-290 | the hostname with one leading `www.` removed, or `Unknown` when the URL does not parse |
| Extractors.ExtractSiteName | src/lib/url-metadata.ts:259-291 | the first decoded site-name capture (twitter:site without one leading `@`), else the host fallback; never null |
| HtmlEntities.DecodeNoLonger | src/lib/url-metadata.ts:293-305 | decoding never lengthens the text |
| HtmlEntities.DecodeWithoutAmpersand | src/lib/url-metadata.ts:293-305 | text without `&` is returned unchanged |
| HtmlEntities.DoublyEncodedLessThan | src/lib/url-metadata.ts:295-296 | `&amp;lt;` decodes to `<`, because `&amp;` is replaced first |
| HtmlEntities.DoublyEncodedAmpersand | src/lib/url-metadata.ts:295 | `&amp;amp;` decodes only to `&amp;`: each pass is a single left-to-right scan |
| UrlMetadata.FetchUrlMetadata | src/lib/url-metadata.ts:22-94 | the method, reassigning `url` stage by stage, equals the decision procedure `MetadataOf` |
| UrlMetadata.ScrapePage | src/lib/url-metadata.ts:56-93 | the generic stage runs the four extractors on a loaded page; any failure gives all nulls and the current URL |
| UrlMetadata.NullSiteNameIsFailure | src/lib/url-metadata.ts:39-93 | the site name is null exactly when the API did not answer and the page failed to load; the other fields are then null too |
| UrlMetadata.ResultUrl | src/lib/url-metadata.ts:25-51 | the URL returned is the input, its resolved short link, or the affiliate URL of its ASIN; only Amazon URLs are rewritten |
| UrlMetadata.NonAmazonUnchanged | src/lib/url-metadata.ts:25 | a non-Amazon URL is scraped as given and returned unchanged |
| UrlMetadata.AmazonSuccess | src/lib/url-metadata.ts:39-47 | an API answer gives the API item's title, image and price, site name `Amazon` and the affiliate URL with the configured tag; the result does not depend on the page fetch |
| UrlMetadata.ApiFailureRewritesUrl | src/lib/url-metadata.ts:49-51 | with an ASIN but no API answer, the scrape runs on the affiliate URL, and every outcome reports it |
| UrlMetadata.FetchFailureKeepsUrl | src/lib/url-metadata.ts:72-75 | a failed fetch gives four nulls and the URL as it stood |
| UrlMetadata.ScrapeSuccess | src/lib/url-metadata.ts:77-84 | a loaded page gives the four extractor results and a non-null site name |
| FetchMeta.FetchMetaPost | src/app/api/wishlist/fetch-meta/route.ts:5-63 | the handler with its early returns equals `FetchMetaOf` |
| FetchMeta.RejectedBeforeFetch | src/app/api/wishlist/fetch-meta/route.ts:9-17 | 401 (no session) and 400 (no `url`) are decided before, and independently of, any fetch |
| FetchMeta.FailuresAreNulls | src/app/api/wishlist/fetch-meta/route.ts:36-39 | a failed fetch answers title, image and price null, with no site name or URL |
| FetchMeta.SameAsGenericStage | src/app/api/wishlist/fetch-meta/route.ts:24-58 | the route scrapes exactly as the generic stage of `fetchUrlMetadata` does, with no URL rewrite |
| FetchMeta.AgreesWithFetchUrlMetadata | src/app/api/wishlist/fetch-meta/route.ts:65-275 | for a non-Amazon URL the route's answer has the same title, image, price and site name as `fetchUrlMetadata` |
| FetchMeta.Status | src/app/api/wishlist/fetch-meta/route.ts:9-62 | only the two early rejections have a non-200 status |
| Amazon.ExtractAsin | src/lib/amazon.ts:19-38 | the upper-cased capture of the first pattern that captures (`/dp/` before `/gp/product/`), null exactly when none does |
| Amazon.AsinShape | src/lib/amazon.ts:22-27 | an ASIN is upper-case letters and digits; the five product-URL patterns give exactly ten, the short-link pattern at least one |
| Amazon.AmazonUrlInContext | src/lib/amazon.ts:41-43 | the host test is an unanchored search: a marker anywhere in the text is enough |
| Amazon.AmazonUrlIgnoresCase | src/lib/amazon.ts:42 | the host test ignores letter case |
| Amazon.AssociateTag | src/lib/amazon.ts:47 | a missing or empty tag falls back to `giftwishlist-20` |
| Amazon.BuildAmazonUrlShape | src/lib/amazon.ts:46-49 | the affiliate URL is `https://www.amazon.com/dp/`, the ASIN, `?tag=` and the tag, and the host test accepts it |
| Amazon.SignedPost | src/lib/amazon.ts:131-152 | the GetItems request carries the JSON payload with the ASIN and partner tag, and its six headers are the signature of that same payload |
| Amazon.GetAmazonProductInfo | src/lib/amazon.ts:125-190 | null exactly when a credential is missing, the request throws or fails, the body is not JSON or there is no first item; otherwise the item's fields and the affiliate URL |
| Amazon.OrNull | src/lib/amazon.ts:170-178 | a field is kept, as text, exactly when it is truthy |
| Amazon.ProductInfoUrl | src/lib/amazon.ts:180-186 | found product information links to the ASIN's page with the configured tag |
| AmazonSigning.SignRequest | src/lib/amazon.ts:52-122 | throws (None) exactly when the access or secret key is missing; otherwise the six headers in order, the date header being the compact request date |
| AmazonSigning.UnhexHex | src/lib/amazon.ts:76 | `digest("hex")` is two lower-case hex digits per byte and loses nothing |
| AmazonSigning.DateStamp | src/lib/amazon.ts:62 | the date stamp contains no `-` |
| AmazonSigning.IsoDateStamp | src/lib/amazon.ts:62 | for `YYYY-MM-DDT…` the date stamp is `YYYYMMDD` |
| AmazonSigning.AmzDate | src/lib/amazon.ts:63 | the request date ends in `Z` and contains no `-`, `:` or `.` |
| AmazonSigning.IsoAmzDate | src/lib/amazon.ts:63 | for `YYYY-MM-DDTHH:MM:SS.fffZ` the request date is `YYYYMMDDTHHMMSSZ` |
| AmazonSigning.CanonicalRequestLines | src/lib/amazon.ts:66-86 | line by line, the canonical request is method, path, empty query, five headers, empty line, signed headers, payload hash |
| AmazonSigning.CredentialScopeParts | src/lib/amazon.ts:89 | the scope splits into date, `us-east-1`, `ProductAdvertisingAPI`, `aws4_request` |
| AmazonSigning.StringToSignLines | src/lib/amazon.ts:90-95 | the string to sign is algorithm, request date, scope and the hex hash of the canonical request |
| AmazonSigning.SigningKeyPerDay | src/lib/amazon.ts:98-106 | the HMAC-chained signing key depends only on the secret and the day |
| AmazonSigning.AuthorizationFields | src/lib/amazon.ts:110 | the header is algorithm, `Credential=key/scope,`, `SignedHeaders=…,` and `Signature=…` |
| AmazonSigning.SignedCredential | src/lib/amazon.ts:98-121 | the authorization header names the access key and the day's scope and signs the string to sign with the day's key |
| SmsInbound.ExtractUrlAndNotes | src/app/api/sms/inbound/route.ts:7-21 | notes exist only with a link, and are non-empty and trimmed |
| SmsInbound.NoUrlIffNoScheme | src/app/api/sms/inbound/route.ts:8-15 | there is no link exactly when no `http://` or `https://` (any case) followed by a non-space occurs |
| SmsInbound.ExtractedUrl | src/app/api/sms/inbound/route.ts:8-15 | the link starts at the leftmost such scheme and is the maximal non-whitespace run from there |
| SmsInbound.NotesAroundUrl | src/app/api/sms/inbound/route.ts:17-18 | the notes are the message without the first occurrence of the link, trimmed, and null when empty |
| SmsInbound.AppendNotes | src/app/api/sms/inbound/route.ts:80-82 | old notes, a line break and the trimmed message; just the message when there are no old notes |
| SmsInbound.AppendNotesLines | src/app/api/sms/inbound/route.ts:80-82 | appending keeps the old notes as the lines before the new one |
| SmsInbound.InboundSms | src/app/api/sms/inbound/route.ts:23-196 | the handler, reassigning user, list and reply, equals `InboundOf` over `fetchUrlMetadata` |
| SmsInbound.AddedReplyParts | src/app/api/sms/inbound/route.ts:181-188 | the reply opens with the quoted title; ` from site` follows it exactly when there is a site name; it ends with the setup hint and app URL for a new user, and with the quote or the site otherwise; its length is the sum of exactly these parts, so nothing else is in it |
| SmsInbound.ConfirmationText | src/app/api/sms/inbound/route.ts:181-188 | the `+=` assembly equals `AddedReply` |
| SmsInbound.ItemTitle | src/app/api/sms/inbound/route.ts:160 | the stored title is the metadata title, or `Untitled Item` |
| SmsInbound.MissingFieldsRejected | src/app/api/sms/inbound/route.ts:31-33 | a missing sender or body gives 400 with nothing read or written; everything else gives 200 |
| SmsInbound.OneReplyToSender | src/app/api/sms/inbound/route.ts:89-190 | every accepted message gets exactly one text, to its sender, as the last effect |
| SmsInbound.NotesOnlyForRecentItem | src/app/api/sms/inbound/route.ts:73-89 | notes are written exactly when there is no link and the last item is less than five minutes old |
| Strings.Utf16Length | src/app/api/sms/inbound/route.ts:47 | `length` counts one unit per character of the Basic Multilingual Plane and two per character beyond it |
| Strings.Utf16LengthAppend | src/app/api/sms/inbound/route.ts:47 | code-unit lengths add up over concatenation |
| SmsInbound.PauseOnlyForNotes | src/app/api/sms/inbound/route.ts:47-55 | the pause is taken exactly for a linkless message shorter than 100 UTF-16 code units, without `?`, not starting with `help` or `stop` |
| SmsInbound.DuplicateNotAdded | src/app/api/sms/inbound/route.ts:149-156 | a link already in the default list creates no item |
| SmsInbound.LinkAdded | src/app/api/sms/inbound/route.ts:159-175 | a new item is stored under the metadata's URL with a non-empty title and the message's notes |
| SmsInbound.NewSenderGetsAccount | src/app/api/sms/inbound/route.ts:114-135 | an unknown sender gets an account with an empty name and a default list |
| SmsInbound.AccountSetup | src/app/api/sms/inbound/route.ts:102-146 | at most one account or list is created before adding |
| PhoneAuth.FormatPhoneNumber | src/lib/auth.ts:69-85 | the output is `+` and digits only, ending with the input's digits |
| PhoneAuth.FormattedDigits | src/lib/auth.ts:74-84 | a `1` is added before exactly ten digits; otherwise the digits are kept |
| PhoneAuth.OnlyDigitsMatter | src/lib/auth.ts:71 | inputs with the same digits format the same |
| PhoneAuth.FormatIdempotent | src/lib/auth.ts:71-84 | formatting twice is formatting once |
| PhoneAuth.ValidIff | src/lib/auth.ts:87-91 | a number is valid exactly when it has 10 to 15 digits |
| PhoneAuth.TenDigitsValid | src/lib/auth.ts:79-91 | every ten-digit number is valid and becomes `+1` and its digits |
| GroupInvite.NormalizePhoneNumber | src/app/api/groups/invite/route.ts:7-28 | equals `formatPhoneNumber` of the auth library on every input |
| GroupInvite.InvitePost | src/app/api/groups/invite/route.ts:31-195 | the handler equals `InviteOf` |
| GroupInvite.Admit | src/app/api/groups/invite/route.ts:58-187 | from the membership check on, the handler equals `Admission` |
| GroupInvite.AddToGroup | src/app/api/groups/invite/route.ts:109-164 | the transaction, reassigning target user and list, equals `Enrolment` |
| GroupInvite.EarlyRejections | src/app/api/groups/invite/route.ts:35-56 | 401, missing fields (400) and a number without 10 to 15 digits (400) are decided in that order, before any database read |
| GroupInvite.OutsiderForbidden | src/app/api/groups/invite/route.ts:71-76 | an inviter outside the group gets 403 and nothing is written |
| GroupInvite.MemberNotReadded | src/app/api/groups/invite/route.ts:89-106 | an invitee already in the group gets 400 and nothing is written or sent |
| GroupInvite.EnrolmentFacts | src/app/api/groups/invite/route.ts:109-164 | the target user is added once, as `MEMBER`, and the group becomes their default only when they had none |
| GroupInvite.Enrolled | src/app/api/groups/invite/route.ts:109-180 | an admitted invitation enrols once and ends by texting the normalised number |
| GroupInvite.InvitationWording | src/app/api/groups/invite/route.ts:167-187 | text and message depend only on whether the invitee existed; the inviter is named, or `Someone` |
| GroupInvite.InviterName | src/app/api/groups/invite/route.ts:168 | the display name, or `Someone` when it is empty |
| PhoneInput.FirstTen | src/components/auth/phone-input.tsx:17 | at most ten digits, a prefix of the input's |
| PhoneInput.FormattedDigits | src/components/auth/phone-input.tsx:16-17 | the formatted text's digits are exactly the first ten digits typed |
| PhoneInput.FormatShape | src/components/auth/phone-input.tsx:19-23 | the layout by digit count: empty, `(d`, `(ddd) d…`, `(ddd) ddd-d…`; at most 14 characters |
| PhoneInput.FormatIdempotent | src/components/auth/phone-input.tsx:15-24 | formatting the field's own text changes nothing |
| PhoneInput.GetDigits | src/components/auth/phone-input.tsx:26-28 | only digits, never longer than the input |
| PhoneInput.FormattedValid | src/components/auth/phone-input.tsx:30-33 | the formatted field is valid exactly when at least ten digits were typed |
| GroupDetail.DisplayShape | src/components/groups/group-detail.tsx:87-97 | a ten-digit number, or eleven starting with `1`, shows as `(XXX) XXX-XXXX` with its last ten digits; anything else shows unchanged |
| GroupDetail.AgreesWithField | src/components/groups/group-detail.tsx:93-95 | for ten digits the display equals the sign-in field's format |
| CodeInputField.LastDigit | src/components/auth/code-input.tsx:34 | a typed entry becomes its last digit, or nothing when it has none |
| CodeInputField.CodeInput.Slots | src/components/auth/code-input.tsx:25 | the slots are the value's first `length` characters |
| CodeInputField.CodeInput.FocusInput | src/components/auth/code-input.tsx:27-31 | focus moves only to an index inside the field |
| CodeInputField.CodeInput.PaddedSlots | src/components/auth/code-input.tsx:36-39 | the padding loop appends empty slots up to `length` |
| CodeInputField.CodeInput.WriteSlot | src/components/auth/code-input.tsx:36-46 | writing a slot hands `onChange` the join of the padded slots and moves focus on after a digit |
| CodeInputField.CodeInput.HandleChange | src/components/auth/code-input.tsx:33-51 | the new value is the kept characters with slot `index` replaced (empty slots closing up); `onComplete` is never called |
| CodeInputField.CodeInput.HandleKeyDown | src/components/auth/code-input.tsx:53-79 | Backspace clears the current slot, else the previous one with focus back, else nothing; arrows move focus inside the field |
| CodeInputField.CodeInput.HandlePaste | src/components/auth/code-input.tsx:81-94 | the first `length` digits replace the value, focus goes to min(count, length − 1), completion fires exactly when they fill the field; no digits, no change |
| CodeInputField.JoinSlots | src/components/auth/code-input.tsx:40-41 | joining the padded slots after a write is the kept characters around the written slot |
| CodeInputField.ChangedValueFits | src/components/auth/code-input.tsx:36-42 | the emitted value is never longer than the field |
| CodeInputField.ClearingShifts | src/components/auth/code-input.tsx:36-69 | clearing a shown slot removes its character and shifts later ones left |
| CodeInputField.TypingPastTheEnd | src/components/auth/code-input.tsx:36-42 | a digit typed past the shown characters lands right after them |
| CodeInputField.TypingIntoFullField | src/components/auth/code-input.tsx:36-42 | in a full field, typing overwrites exactly that position |
| CodeInputField.ChangeNeverCompletes | src/components/auth/code-input.tsx:48-50 | no value passes the completion test as written |
| CodeInputField.SixthDigitNotSubmitted | src/components/auth/code-input.tsx:48-50 | typing the sixth digit of `12345` fills the field to `123456`, yet the test fails |
| CodeInputField.CodeInput.HandleChangeIntended | src/components/auth/code-input.tsx:33-51 | as `handleChange`, with completion firing exactly when the new value fills the field |
| CodeInputField.FilledIffFull | src/components/auth/code-input.tsx:36-50 | no slot is empty exactly when the joined value has `length` characters |
| Middleware.Gate | src/middleware.ts:11-48 | the cookie is deleted only when a token was present |
| Middleware.PassIff | src/middleware.ts:11-48 | a request passes exactly when its path is public or static, or its token verifies |
| Middleware.OpenPathsIgnoreToken | src/middleware.ts:15-26 | public and static paths pass whatever the token and verifier |
| Middleware.LoginPrefixIsPublic | src/middleware.ts:9-17 | anything starting with `/login` is public |
| Middleware.MissingTokenRedirects | src/middleware.ts:29-35 | a protected path without a token redirects to `/login` and deletes nothing |
| Middleware.TokenDecides | src/middleware.ts:37-48 | with a token, verification decides between passing and redirect-and-delete |
| Middleware.ClearOnlyRejectedToken | src/middleware.ts:37-48 | the cookie is deleted exactly for a present token that fails verification |
| Middleware.JwtSecret | src/middleware.ts:5-7 | the secret is `JWT_SECRET` or the development default |

## Left out

- Network calls are parameters of type `Page`, `ApiReply` or `Option<string>`. These are the page fetch, the API POST and the short-link HEAD request. The 10-second abort timer is not modelled.
- The 5-second pause of the SMS handler is the `paused` flag of its outcome. The clock is the `now` parameter, read after the pause as in the source.
- `JSON.parse`, `parseFloat(…).toFixed(2)`, SHA-256, HMAC-SHA-256 and `jwtVerify` are function parameters.
- Extractors.BlockPrice: the NaN gate is modelled as "the kept text has no digit before its first non-numeric character", which is what `parseFloat` decides on text of digits and dots. The formatted number itself comes from the `toFixed2` parameter.
- The `URL` constructor is a small parser of `scheme://[userinfo@]host[:port]` for `http` and `https`. It drops the text up to the last `@` and a digit port equal to the scheme's default; everything else counts as a throw. It does not capture these parts of the WHATWG parser:
  - IPv6 hosts in brackets fail to parse. A root-relative image URL on such a page then counts as a throw, so the result is the no-metadata fallback, and the site name is `Unknown`;
  - `http:example.com` and `http:/example.com` are rejected, where the WHATWG parser accepts them;
  - leading and trailing whitespace, tabs and newlines are not stripped;
  - ports are not normalised: `:0080` is kept, and a port above 65535 does not throw;
  - hosts are not percent-decoded or IDNA-normalised.
- Regular expressions are matched by a matcher written for the patterns used here, not by a general engine. `\s` is the JavaScript whitespace set; `/i` is ASCII case folding.
- Database writes are effects and reads are inputs. A database or SMS failure that the SMS handler would answer with 500 is not modelled; the model's database is total. For the invite handler only the throws decided by the request (a `null` body, a non-string phone number or group id) give the 500 outcome.
- `createSession`, `getSession` and `clearSession` are not modelled: the session is an input.
- The `config.matcher` of the middleware is not modelled.
- React rendering, `src/lib/twilio.ts`, `generate-code.ts` and the persistence-only routes are not part of this model.
- `formData.get` returning a `File` is not modelled: sender and body are text or absent.
- `String.fromCharCode` of a lone surrogate gives U+FFFD here, because a Dafny `char` cannot hold a surrogate code unit.
- HtmlEntities.FromCharCode: a numeric character reference is decoded from its exact integer value. `parseInt` returns a double, so from 2^53 upwards (and for `Infinity`) the source decodes a rounded value; `&#9007199254740993;` gives U+0000 there and U+0001 here.
- Strings are sequences of Unicode characters, not UTF-16 code units. Only the 100-unit limit of `looksLikeNotes` counts code units (`Strings.Utf16Length`). The code field's `value.split("")` splits characters, which differs only for characters beyond the Basic Multilingual Plane.
- Json.ToJsString, Json.FirstOpt, Amazon.OrNull: JSON objects are assumed to have no `toString` or `valueOf` keys, so `String(v)` never throws. The API fields are assumed to have the documented types: `Items` is an array, so `Items?.[0]` never reads an object key `"0"`, and `|| null` only meets strings.

## Findings

| source | as written | input that shows it | evidently intended | confidence | as-written member | corrected member |
|---|---|---|---|---|---|---|
| src/components/auth/code-input.tsx:48 | `!newValue.includes("")` is false for every string, since every string includes `""`; `onComplete` never fires when typing | value `12345`, length 6, typing `6` into slot 5 gives `123456`, and the code is not submitted | fire when no slot of `newDigits` is empty, which holds exactly when the value fills the field | high; not executed | CodeInputField.CodeInput.HandleChange | CodeInputField.CodeInput.HandleChangeIntended |
