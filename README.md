# OLMS receipt and upload rules in Dafny

This project models two parts of the OLMS gold-loan management application.

**The bill route** (`src/app/api/bills/route.ts`) generates a payment receipt. The model covers:
- the Python function `numberToWords` embedded in the receipt template, which spells an amount in the Indian numbering system (Crore, Lakh, Thousand, Hundred, then tens and units);
- the request checks;
- the receipt type and its title;
- the settings map built from the settings table, and the company details read from it;
- the file name of the generated bill;
- the rule that decides whether the signature block is added;
- the numbering of the ornament rows.

**The upload route** (`src/app/api/upload/route.ts`) stores signatures and documents. The model covers:
- the ordered validation chain of a POST;
- the stored file name and its extension;
- the `signature_path` settings upsert;
- the GET handler's file-name check and its content-type mapping.

Modules:
- `Text`: the JavaScript and Python string operations the routes rely on. These are `x || fallback`, `split` and `pop`, ASCII lower-casing, decimal rendering and Python's `str.strip()`.
- `Http`: error responses, as a status code and a message.
- `NumberWords`:
  - `NumberToWords` is a method that follows the source step by step: `n %=` per group, the accumulating `result`, and the final `strip()`.
  - It is proved equal to the place-value specification `Spell`.
  - `Value` gives each list of spoken words the number it denotes, so the spelling can be checked against the amount it spells.
- `Receipt`: the bill route's rules. The settings map is built by a loop, as the source's `forEach` builds it.
- `Upload`: the upload route. The uploads directory and the settings table are the fields of the class `UploadStore`, which its `Post` method updates.

## Model

| member | source | states |
|---|---|---|
| NumberWords.NumberToWords | src/app/api/bills/route.ts:401-438 | the routine returns exactly `Spell(n)`: "Zero" for 0, the empty string for a negative amount, an IndexError carrying the first `ones` index of 10 or more, and otherwise the stripped words |
| NumberWords.GroupStep | src/app/api/bills/route.ts:411-425 | one group step either fails with the out-of-range count the specification predicts, or says the group's words exactly when the remainder reaches the divisor and leaves the remainder below it |
| NumberWords.SayLastTwoDigits | src/app/api/bills/route.ts:427-436 | the tens, teens and units steps append exactly the two-digit words of the remainder, each followed by one space |
| NumberWords.PlaceValues | src/app/api/bills/route.ts:411-425 | an amount is the sum of its crore, lakh, thousand and hundred counts times their values plus the last two digits, and the same holds below one crore |
| NumberWords.Remainders | src/app/api/bills/route.ts:413-425 | after each `%=` the remainder is below that group's divisor, and its quotient by the next divisor is the next group's count |
| NumberWords.SpellBelowHundred | src/app/api/bills/route.ts:406-436 | 0 spells "Zero"; 1..9 spell `ones[n]`; 10..19 spell `teens[n-10]` and nothing else; 20..99 spell `tens[n/10]`, followed by `ones[n%10]` only when that digit is not zero |
| NumberWords.ScaleWordsPresent | src/app/api/bills/route.ts:411-425 | each of Crore, Lakh, Thousand and Hundred is said exactly when the amount still left for it reaches its divisor |
| NumberWords.ScalesInOrder | src/app/api/bills/route.ts:411-436 | scale words appear in strictly decreasing order: Crore, Lakh, Thousand, Hundred |
| NumberWords.InRangeDigits | src/app/api/bills/route.ts:412-420 | every lookup succeeds exactly for amounts below ten crore whose ten-lakh and ten-thousand digits are both zero |
| NumberWords.SpellFailsIffOutOfRange | src/app/api/bills/route.ts:412-420 | the routine fails exactly when some group count is 10 or more, and the failing index is at least the table's length |
| NumberWords.SpellsBelowTenThousand | src/app/api/bills/route.ts:419-438 | every amount from 0 to 9999 is spelled without error |
| NumberWords.FifteenThousandOutOfRange | src/app/api/bills/route.ts:419-420 | 15000 fails with index 15 and 10000 fails with index 10 |
| NumberWords.SpellIsTrimmedWords | src/app/api/bills/route.ts:438 | a spelled text is non-empty, has no leading or trailing whitespace, and splits on spaces back into exactly its words, with no empty piece |
| NumberWords.SpellDenotesAmount | src/app/api/bills/route.ts:401-438 | whenever the routine succeeds on a positive amount, the words it says denote that amount |
| NumberWords.CorrectedDenotesAmount | src/app/api/bills/route.ts:411-425 | the corrected spelling denotes its amount for every non-negative amount |
| NumberWords.CorrectedAgreesInRange | src/app/api/bills/route.ts:401-438 | wherever the routine succeeds, it says the same words as the corrected spelling |
| NumberWords.CorrectedFifteenThousand | src/app/api/bills/route.ts:419-421 | the corrected spelling of 15000 is "Fifteen Thousand" |
| Receipt.CheckBillRequest | src/app/api/bills/route.ts:14-38 | 401 exactly when the caller is not signed in; 400 exactly when neither id is given; otherwise the lookup is by payment id when one is given, else by loan id |
| Receipt.ReceiptType | src/app/api/bills/route.ts:26 | the receipt type is the given parameter, or "customer" when it is missing or empty |
| Receipt.Title | src/app/api/bills/route.ts:163 | the title is the customer copy exactly when the type is "customer", and the office copy exactly otherwise |
| Receipt.DefaultTitle | src/app/api/bills/route.ts:26 | without a type the receipt is the customer copy; any other non-empty type gives the office copy |
| Receipt.BillFileNameShape | src/app/api/bills/route.ts:103 | the bill's file name is `bill_`, the type, `_`, the payment id (or the loan reference when there is none), `_`, the timestamp's digits and `.pdf`, with nothing else |
| Receipt.BuildSettingsMap | src/app/api/bills/route.ts:86-90 | the map holds exactly the keys of the rows, and each key holds the value of the last row with that key |
| Receipt.LastValueIsLastWriter | src/app/api/bills/route.ts:88-90 | a key is missing exactly when no row has it; otherwise its value is that of a row after which no row has the key |
| Receipt.CompanyInfoOf | src/app/api/bills/route.ts:92-99 | the company name is never empty: it is the stored name, or "OLMS Gold Loan" when that is missing or empty; every other field is the stored value, or empty when the key is missing |
| Receipt.CompanyInfoFromRows | src/app/api/bills/route.ts:86-99 | each detail is the last row's value for its key, or the default when that value is empty or absent, so a later empty row overrides an earlier value |
| Receipt.SignatureOnlyOnOfficeCopy | src/app/api/bills/route.ts:384 | the signature block is added only to an office copy, and never to a customer copy |
| Receipt.OrnamentRows | src/app/api/bills/route.ts:336-339 | one row per ornament, carrying its name; a missing or empty list gives exactly the one placeholder row |
| Receipt.OrnamentSerials | src/app/api/bills/route.ts:337-338 | row `i` carries the decimal serial number `i + 1` |
| Upload.Validate | src/app/api/upload/route.ts:12-45 | an upload passes exactly when the user is an admin, the `file` field holds a file rather than text, its MIME type is png, jpeg or jpg, and its size is at most 2 MiB; rejections are 403 or 400 |
| Upload.RejectionOrder | src/app/api/upload/route.ts:12-45 | which check rejects: a non-admin gets 403 whatever the file; a missing field or an empty text gets "No file provided"; a non-empty text or a wrong type gets "Invalid file type" whatever the size |
| Upload.SizeBoundary | src/app/api/upload/route.ts:40-45 | a file of exactly 2097152 bytes is accepted, and one of 2097153 bytes is rejected with the size message |
| Upload.UploadType | src/app/api/upload/route.ts:21 | the upload type is the given field, or "general" when it is missing or empty |
| Upload.Extension | src/app/api/upload/route.ts:53 | the extension is the suffix after the last dot and contains no dot; a name without a dot is its own extension |
| Upload.StoredNameKeepsExtension | src/app/api/upload/route.ts:53-54 | the stored name has the same extension as the uploaded name |
| Upload.StoredNameParts | src/app/api/upload/route.ts:52-54 | for a type without a dot, the stored name splits into `<type>_<timestamp>` and the extension, and the timestamp reads back from its digits |
| Upload.FilePath | src/app/api/upload/route.ts:55 | the path is the uploads directory, one `/`, then the file name |
| Upload.ContentType | src/app/api/upload/route.ts:103-104 | image/png exactly for a lower-cased extension `png`; image/jpeg exactly for `jpg` or `jpeg`; application/octet-stream exactly for every other extension |
| Upload.StoredContentType | src/app/api/upload/route.ts:53-54 | a stored file is served with the content type of the name it was uploaded under |
| Upload.UploadStore.Get | src/app/api/upload/route.ts:89-117 | 400 exactly when no file name is given; 404 exactly when the file is not in the uploads directory; otherwise its bytes with the content type of its name |
| Upload.UploadStore.Post | src/app/api/upload/route.ts:10-75 | a rejected upload changes nothing. An accepted one writes the bytes under `<type>_<timestamp>.<ext>` and sets `signature_path` to the file's path exactly when the type is "signature", with nothing else changed. A GET of the stored name then serves the bytes, and a signature upload becomes the receipt's signature path |
| Upload.SignatureReachesReceipt | src/app/api/upload/route.ts:63-69 | after the upsert, the receipt's company details carry the new signature path, and an admin receipt includes the signature block |

## Left out

- PDF generation: the receipt template's layout, writing and running the generated Python script, and reading and deleting the temporary files. These are external processes and file I/O.
- `formatDate` and `formatAmount`: they depend on locale-specific date and currency formatting. For the same reason the weight and value columns of the ornament rows are not modelled; `Receipt.OrnamentRow` keeps the serial, item and metal columns.
- The database lookups behind the bill route and their 404 responses ("Payment not found", "Loan not found"). The model stops at the lookup `Receipt.CheckBillRequest` chooses.
- Authentication, `Date.now()` and `process.cwd()`: the signed-in state, the user's role, the timestamp and the uploads directory are parameters.
- Every 500 response from a `catch` block, except the GET handler's, which is the 404 "File not found" modelled by `Upload.UploadStore.Get`.
- `Upload.FilePath`: `path.join` also normalises `.` and `..` segments and repeated slashes. The model concatenates with one `/`, and the uploads directory is keyed by file name, so path traversal through the GET file name is not modelled.
- `Upload.ContentType`: only ASCII letters are lower-cased; JavaScript's full Unicode `toLowerCase` is not modelled.
- The amount-in-words line of the receipt (src/app/api/bills/route.ts:359) interpolates `numberToWords(...)` in the TypeScript template, where no function of that name is defined. Only the Python function's own behaviour is modelled.
- The form field `type` is taken to be a string; a file sent in that field is not modelled. The `file` field is modelled as missing, a file or a text (`Upload.FormValue`).
- The settings map of the bill route is a plain JavaScript object. A row keyed `__proto__` is not stored as a key there, and inherited property names such as `constructor` do not read as missing. `Receipt.Lookup` and `Receipt.BuildSettingsMap` treat the map as a dictionary, which agrees with the object for every other key, including all the keys the receipt reads.
- The signature block's `os.path.exists` check (src/app/api/bills/route.ts:386): whether the image file is still on disk when the script runs is not modelled. `Receipt.ShowsSignature` decides whether the block is in the script.
- The seeding routes, the database client set-up, the sample data script and the customer history route are not part of this model.

## Findings

| source | as written | input that shows it | evidently intended | confidence | as-written member | corrected member |
|---|---|---|---|---|---|---|
| src/app/api/bills/route.ts:411-421 | each of the crore, lakh and thousand counts indexes `ones`, which has ten entries, though a lakh or thousand count can reach 99 and a crore count is unbounded | 15000: `ones[15]` raises IndexError (so do 10000 and 1500000) | spell every group count as a number in its own right ("Fifteen Thousand") | not executed | NumberWords.FifteenThousandOutOfRange | NumberWords.CorrectedDenotesAmount |
