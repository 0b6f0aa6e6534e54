# Positional record store of the shop server

This project models the record-keeping core of a small Express server (`server.js`). The server keeps two
collections, each a JSON array in its own file. `messages.json` holds contact messages and `products.json` holds
product listings. A record has no identifier: it is addressed by its zero-based position in the array. Every
handler reads the whole file and parses it. It then changes the array (push, indexed field update, indexed
replace, `splice`) and writes the whole array back. Product create and update also take uploaded image files.
multer has already stored each one under the name `<Date.now()>-<originalname>`, and the product keeps an
`images/<filename>` reference to each.

Modules, one file each:

- `Wrappers` (wrappers.dfy): `Option`, `Result` and `Outcome`.
- `Positional` (positional.dfy): the array operations as functions on `seq`. These are replace at an index,
  `splice(i, 1)`, its inverse insert, and repeated push. `RemoveAt` and `InsertAt` are proved inverse to each
  other in both directions. The `ReplaceAt` lemmas relate it only to itself (writing back the same record; two
  writes at one index). `PushAll` is related to concatenation, and stands for successive append handler calls
  (`Messages.SubmitInOrder` shows two `Submit` calls producing it).
- `Store` (store.dfy): the backing document as a datatype. It is an array of records, an unreadable file or a
  file that does not parse as an array. This file also holds the typed errors, `Load` and the range check
  `isNaN(idx) || idx < 0 || idx >= length`.
- `Decimal` (decimal.dfy): rendering a millisecond clock reading as decimal digits, and parsing it back.
- `Assets` (assets.dfy): the upload filename rule, image references, and their inverses.
- `Messages` (messages.dfy): `MessageStore`, a class whose `doc` field is the content of `messages.json`.
  Its methods are POST /contact, GET /api/messages and PATCH /api/messages/:index/read. The method
  `SubmitThenMarkRead` is a worked example (one concrete run through submit, list and mark-read), not an
  all-inputs property; it has no contract and no row below.
- `Products` (products.dfy): `ProductStore`, a class whose `doc` field is the content of `products.json`.
  Its methods are GET, POST, PUT and DELETE on /products. The method `CreateUpdateDelete` is a worked
  example (create with two uploads, update without files, a rejected index, delete), not an all-inputs
  property; it has no contract and no row below.

Each handler is a method that changes `doc` the way the handler changes the file. Its `ensures` give the
result and the whole new document in terms of the old one. On every error path (unreadable file, unparsable
file, invalid index, failed write) the document is left unchanged. The checks run in the order the source runs
them: read, then parse, then index, then write. A path index is an `Option<int>`, with `None` standing for
`NaN`. Clock readings and the outcome of each file write are passed in as parameters.

## Model

| member | source | states |
|---|---|---|
| Positional.ReplaceAt | server.js:136 | replacing position i keeps the length, puts the new record at i and leaves every other position unchanged |
| Positional.RemoveAt | server.js:160 | `splice(i, 1)` shortens the array by one; positions before i keep their record, and each later record moves down one position |
| Positional.InsertAt | server.js:160 | inserting at i (the inverse of the splice) lengthens by one, puts the record at i and shifts the later records up by one |
| Positional.RemoveThenInsert | server.js:160 | putting the removed record back at i restores the array exactly, so a delete loses only that record |
| Positional.InsertThenRemove | server.js:160 | removing a record just inserted at i gives the original array back |
| Positional.RemoveAtMultiset | server.js:160 | a delete removes exactly one occurrence of the record that was at i and nothing else |
| Positional.ReplaceWithSame | server.js:136 | writing back the record already at i leaves the array equal to before |
| Positional.ReplaceTwice | server.js:136 | of two replaces at the same index, only the last one is visible |
| Positional.PushAllInOrder | server.js:54 | successive appends produce the old records followed by the new ones in insertion order |
| Messages.SubmitInOrder | server.js:54 | two successful submissions leave the stored messages equal to the old ones pushed with both new unread messages, in submission order |
| Store.Load | server.js:95-103 | a read failure gives ReadFailed, an unparsable document gives InvalidFormat, and otherwise the stored records come back unchanged |
| Store.CheckIndex | server.js:71-73 | an index is accepted exactly when it is a number with 0 <= idx < length; NaN, negative and too-large indices give InvalidIndex |
| Decimal.Render | server.js:36 | the clock reading renders as a non-empty string of decimal digits with no leading zero |
| Decimal.ParseRender | server.js:36 | parsing the rendered clock reading gives the reading back |
| Decimal.RenderParse | server.js:36 | every canonical digit string is the rendering of its own value, so rendering is onto canonical strings |
| Assets.StoredName | server.js:36 | a stored filename ends with "-" followed by the original filename, and everything before that is decimal digits |
| Assets.Upload | server.js:35-37 | the stored file keeps the client's original name and is named by the filename rule |
| Assets.SplitStoredName | server.js:36 | any name it splits into (reading, original) is exactly the stored name made from them |
| Assets.StoredNameRoundTrip | server.js:36 | a stored name determines its clock reading and its original filename: splitting at the first "-" recovers both |
| Assets.ImageRef | server.js:105 | a reference is "images/" followed by the stored filename |
| Assets.FileOfRef | server.js:134 | any reference it accepts is the image reference of the filename it returns |
| Assets.ImageRefRoundTrip | server.js:105 | stripping "images/" from a reference recovers the stored filename |
| Assets.ImageRefs | server.js:105 | the reference list has one entry per uploaded file, in upload order, each "images/" plus that file's stored name |
| Assets.Uploaded | server.js:133 | `req.files \|\| []`: a request without a file list counts as having no files |
| Assets.ImageRefsConcat | server.js:105 | mapping files to references commutes with concatenation, so upload order is preserved |
| Assets.ImageRefsNameFiles | server.js:134 | the i-th reference of a product names the i-th uploaded file |
| Messages.NewMessage | server.js:44-50 | a submitted message carries the given name, email, message and timestamp and is unread |
| Messages.WithRead | server.js:74 | marking a message sets its read flag to the given value and keeps name, email, message and timestamp |
| Messages.WithReadSame | server.js:74 | setting the read flag to its current value leaves the message as it was |
| Messages.MessageStore.constructor | server.js:21-23 | a missing messages file starts as an empty array; an existing one is kept |
| Messages.MessageStore.Submit | server.js:42-59 | on success the messages are the old ones plus the new unread message at the end; a load or write failure leaves the file unchanged |
| Messages.MessageStore.List | server.js:62-65 | the listing is the stored messages in stored order, or the load error |
| Messages.MessageStore.MarkRead | server.js:68-77 | a NaN, negative or too-large index gives InvalidIndex and no write; otherwise only the read flag of message idx changes |
| Products.MakeProduct | server.js:106 | a product carries the body's name, price, scripture and category and the given image list |
| Products.UpdatedImages | server.js:132-135 | with no uploads the product keeps its images exactly; with uploads the list is the new references only, one per file in upload order |
| Products.UploadsReplaceImages | server.js:132-135 | with at least one upload the old image list has no influence on the new one: images are replaced, not appended |
| Products.ProductStore.constructor | server.js:18 | the store starts from whatever products.json holds; the server does not create it |
| Products.ProductStore.List | server.js:80-91 | the listing is the stored products in stored order, or ReadFailed / InvalidFormat |
| Products.ProductStore.Create | server.js:94-114 | on success exactly one product is appended at the end, with images "images/"+filename per upload in order (empty, never absent, without uploads), and it is returned |
| Products.ProductStore.Update | server.js:117-143 | an invalid or NaN index gives InvalidIndex and leaves the file unchanged; otherwise position idx is replaced by the new fields and chosen images, and the length and every other position are kept |
| Products.ProductStore.Delete | server.js:146-167 | an invalid or NaN index gives InvalidIndex and leaves the file unchanged; otherwise the product at idx is spliced out |

## Left out

- Express routing, CORS, static file serving, body-parser and `app.listen` are framework plumbing.
- HTTP status codes and response bodies are reduced to the error kind, or to success with its value.
- Reading and writing the JSON files, and `JSON.parse` / `JSON.stringify`, are abstracted. The file content is the
  `Document` datatype, and whether a write succeeds is a boolean parameter.
- A failed write is modelled as leaving the document unchanged. A partial (non-atomic) write that truncates the
  file is not modelled.
- For messages, a read or parse failure throws out of the synchronous handler, and Express answers it with its
  default 500 page. The model reports it as the same ReadFailed / InvalidFormat error the product handlers return.
- A file that parses to JSON that is not an array (an object, `null`, a number, a string) is folded into
  `Malformed`, so every handler reports InvalidFormat for it. The source does not reject it; handler by handler:
  - GET /api/messages and GET /products return the parsed value as a success.
  - POST /contact throws on `messages.push`; Express answers with its default 500.
  - PATCH /api/messages/:index/read passes the range check for an object, because `idx >= undefined` is false.
    It then throws on `messages[idx].read = …`; Express answers with its default 500.
  - POST /products throws on `products.push` inside the `fs.readFile` callback. Express does not catch that,
    so it is an uncaught exception that stops the process.
  - PUT /products/:index passes the range check for an object. Without uploads it throws on
    `products[idx].images` inside the callback (uncaught, the process stops). With uploads it writes the object
    back with a new key.
  - DELETE /products/:index passes the range check for an object and throws on `products.splice` inside the
    callback (uncaught, the process stops).
- `parseInt`'s prefix parsing (for example "3abc" reads as 3) is not modelled. The index arrives already parsed,
  as `Option<int>`.
- `Date.now()` and `new Date().toISOString()` are clock reads. They are parameters: the timestamp is taken as a
  string and the millisecond reading as a `nat`, so a clock before 1970 is not modelled.
- Decimal.Render: JavaScript renders an integer number as plain decimal only below 10^21. `Date.now()` stays far
  below that, so larger readings are not modelled.
- Multer writing the uploaded bytes to the images directory is I/O, and so is creating that directory. Stored
  files are never deleted by the server, so there is nothing to model there.
- Messages.MessageStore.MarkRead: `req.body.read` is stored as sent and may be any JSON value. The model takes a
  boolean.
- Messages.MessageStore.Submit: a missing body field is stored as absent (`undefined`). The model takes strings.
- Products.ProductStore.Create: `name`, `price`, `scripture` and `category` come from the body as they are. A
  missing field is stored as absent, because `JSON.stringify` drops `undefined`. A JSON body parsed by
  body-parser reaches the handler unchanged, so any field may be any JSON value. The model takes strings and a
  text-or-number price.
- Products.ProductStore.Update: the same holds for the update's fields. Because the whole record is replaced, a
  field left out of a PUT is deleted from the stored product; the model always stores all four fields.
- Products.ProductStore.Update: when the stored product has no `images` field, the source stores it without one.
  In the model every product has an image list.
- Two concurrent read-modify-write cycles on the same file can lose an update. Concurrency is out of scope, and
  each method runs to completion on its own.
