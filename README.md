# VCL snippets client of go-fastly, modelled in Dafny

`fastly/vcl_snippet.go` is the part of the Fastly API client that lists, creates,
updates and deletes VCL snippets of one version of a service. Every operation checks
its required fields in a fixed order before anything is sent. It then builds the
resource path by string interpolation, issues one HTTP request and passes on what the
transport and the JSON decoder return. The List operation also sorts the decoded
snippets by name with `sort.Stable`.

This project models that logic:

- `Snippets`: the ten placement types (`VCLSnippetType`) with their wire strings, and
  the `VCLSnippet` record.
- `GoStrings`: Go's `<` on strings, a byte-wise lexicographic order. Dafny's own `<` on
  sequences means "proper prefix", which is not the same thing. The lemmas prove the
  order is strict and total.
- `GoFmt`: what `%d` prints for an `int`, an optional minus sign and then digits with no
  leading zeros. `ParseInt` reads exactly the strings `%d` prints, so it is its inverse.
- `PathSegments`: splitting a path at `/` and joining segments back together.
- `SnippetsByName`: the `snippetsByName` comparator and swap, and the in-place stable
  sort. The sort is an insertion sort over an `array`, built on `Less` and `Swap`.
  It is proved sorted, a permutation, and stable. Stable means that for every name,
  the subsequence of snippets with that name is unchanged. A sorted sequence is
  determined by those subsequences (`StableSortUnique`). So the array sort equals the
  functional reference `StableSortByName`, and so would any other stable sort.
- `SnippetClient`: the error values, the four input records, the request an operation
  issues and the four operations. The network is not modelled. The reply that the
  transport and decoder would produce is a parameter. The result says which request
  was sent (`sent`), or that none was, and what came back.

Three points of the code that the model keeps as written:

- Only version 0 is rejected (`fastly/vcl_snippet.go:85`), so a negative version is
  sent, with a `-` in the path.
- A missing service id, version and name are three distinct errors,
  `ErrMissingService`, `ErrMissingVersion` and `ErrMissingName`
  (`fastly/vcl_snippet.go:82`, `:86`, `:160`).
- Create checks the version as well as the service id (`fastly/vcl_snippet.go:121-123`),
  like the other three operations; it does not check the name.

## Model

| member | source | states |
|---|---|---|
| `Snippets.TypeString` | fastly/vcl_snippet.go:14-41 | each placement type is sent as its own constant's string, a lower-case word of three to seven letters |
| `Snippets.ParseType` | fastly/vcl_snippet.go:12-42 | exactly the ten wire strings read as a placement type: a string read as a type is that type's wire string, and every type's wire string is read as some type |
| `Snippets.ParseTypeOfTypeString` | fastly/vcl_snippet.go:12-42 | each placement type's wire string reads back as that type, so the ten wire strings are distinct |
| `GoStrings.Less` | fastly/vcl_snippet.go:67 | of two names where one is a prefix of the other, the shorter is less exactly when it is strictly shorter |
| `GoStrings.LessAtFirstDifference` | fastly/vcl_snippet.go:67 | at the first position where two names differ, the name with the smaller character there is the lesser one |
| `GoStrings.LessIrreflexive` | fastly/vcl_snippet.go:66-68 | no name is less than itself |
| `GoStrings.LessTransitive` | fastly/vcl_snippet.go:66-68 | the name order is transitive |
| `GoStrings.LessTotal` | fastly/vcl_snippet.go:66-68 | any two different names are ordered one way or the other |
| `GoStrings.LessAsymmetric` | fastly/vcl_snippet.go:66-68 | two names are never each less than the other |
| `GoStrings.LessEqTransitive` | fastly/vcl_snippet.go:66-68 | `<=` on names is transitive |
| `GoStrings.LessEqAntisymmetric` | fastly/vcl_snippet.go:66-68 | names each `<=` the other are equal |
| `GoFmt.NatToDecimal` | fastly/vcl_snippet.go:89 | the digits of a magnitude are non-empty decimal digits, starting with '0' only for zero |
| `GoFmt.FormatInt` | fastly/vcl_snippet.go:89 | `%d` prints only digits and a minus sign, and a leading minus exactly for negative numbers |
| `GoFmt.ParseNatOfNatToDecimal` | fastly/vcl_snippet.go:89 | the digits printed for a magnitude read back as that magnitude |
| `GoFmt.NatToDecimalOfParseNat` | fastly/vcl_snippet.go:89 | every canonical digit string is the one printed for its value |
| `GoFmt.ParseIntOfFormatInt` | fastly/vcl_snippet.go:89 | what `%d` prints for a version, negative ones included, reads back as that version |
| `GoFmt.FormatIntOfParseInt` | fastly/vcl_snippet.go:89 | every string the parser accepts is what `%d` prints for its value |
| `GoFmt.FormatIntInjective` | fastly/vcl_snippet.go:89 | different versions give different path segments |
| `SnippetsByName.NameLess` | fastly/vcl_snippet.go:66-68 | a snippet goes before another only when their names differ, so snippets with equal names are never reordered by the comparator |
| `SnippetsByName.Swap` | fastly/vcl_snippet.go:65 | the two snippets change places and nothing else changes |
| `SnippetsByName.InsertPass` | fastly/vcl_snippet.go:99 | one insertion step sorts `a[..i + 1]`, which keeps the snippets it held before, leaves everything after `i` unchanged, and keeps each name's subsequence |
| `SnippetsByName.SortStable` | fastly/vcl_snippet.go:99 | sorting in place leaves the snippets in non-decreasing name order, as a permutation of the input that keeps every name's subsequence, equal to the reference stable sort |
| `SnippetsByName.InsertByNameMultiset` | fastly/vcl_snippet.go:99 | inserting a snippet adds exactly that snippet |
| `SnippetsByName.InsertByNameWithName` | fastly/vcl_snippet.go:99 | an inserted snippet goes after every earlier snippet with the same name |
| `SnippetsByName.InsertByNameSorted` | fastly/vcl_snippet.go:99 | inserting into a sorted sequence keeps it sorted |
| `SnippetsByName.StableSortByNameCorrect` | fastly/vcl_snippet.go:99 | the reference sort is sorted by name, a permutation, and stable |
| `SnippetsByName.StableSortUnique` | fastly/vcl_snippet.go:99 | two sequences sorted by name with the same subsequence for every name are equal, so a stable sort's result is determined |
| `SnippetsByName.SortsByNameExample` | fastly/vcl_snippet.go:99 | snippets named b, a, c are listed as a, b, c |
| `SnippetsByName.KeepsOrderOfEqualNamesExample` | fastly/vcl_snippet.go:99 | two snippets named x keep their order |
| `SnippetClient.ErrorText` | fastly/vcl_snippet.go:212 | this file fixes the text of transport, decoding and rejected-delete errors but not of the missing-field errors; a rejected delete's text is "Not Ok: " followed by the server's message |
| `SnippetClient.NotOkText` | fastly/vcl_snippet.go:212 | a rejected delete's error text is "Not Ok: " followed by the server's message, which can be read back from it |
| `SnippetClient.CollectionPath` | fastly/vcl_snippet.go:89 | the List/Create path starts with "/service/" and the service id, ends with "/snippet", and is 26 characters longer than the service id and the printed version together |
| `SnippetClient.ItemPath` | fastly/vcl_snippet.go:163 | a snippet's path is its version's collection path followed by "/" and the name |
| `SnippetClient.ParseCollectionPathOfCollectionPath` | fastly/vcl_snippet.go:89 | the List/Create path reads back as its service id and version, when the service id is slash-free |
| `SnippetClient.CollectionPathOfParseCollectionPath` | fastly/vcl_snippet.go:125 | every path of the collection shape is the collection path of the service and version it names |
| `SnippetClient.ParseItemPathOfItemPath` | fastly/vcl_snippet.go:163 | the Update/Delete path reads back as its service id, version and name, when those are slash-free |
| `SnippetClient.ItemPathOfParseItemPath` | fastly/vcl_snippet.go:201 | every path of the item shape is the item path of the service, version and name it names |
| `SnippetClient.UnescapedPathsCollide` | fastly/vcl_snippet.go:201 | the path is not escaped: a name or service id holding "/version/{n}/snippet/" gives the same path as a different service id, version and name |
| `SnippetClient.ListVCLSnippets` | fastly/vcl_snippet.go:80-101 | an empty service fails with ErrMissingService whatever the version; then version 0 fails with ErrMissingVersion; a request is sent exactly when both are present (negative versions included), as a GET of the collection path; transport and decode errors come back unchanged; success returns the decoded snippets sorted by name, as a stable permutation |
| `SnippetClient.CreateVCLSnippet` | fastly/vcl_snippet.go:116-136 | service then version are checked and the name never is; a request is sent exactly when both pass, as a form POST of the input to the collection path; the reply is passed on unchanged |
| `SnippetClient.UpdateVCLSnippet` | fastly/vcl_snippet.go:150-174 | service, version, name are checked in that order and the first failure is returned with no request; otherwise the input is PUT as a form to the snippet's path and the reply passed on unchanged |
| `SnippetClient.DeleteVCLSnippet` | fastly/vcl_snippet.go:188-215 | same checks and order as Update; otherwise a DELETE of the snippet's path; success exactly when the acknowledgement is ok, NotOk with the server's message when it is not, whose error text is "Not Ok: " and the message; transport and decode errors unchanged |
| `SnippetClient.UpdateAndDeleteValidateAlike` | fastly/vcl_snippet.go:150-161 | an update and a delete of the same snippet fail with the same error or target the same path, whatever the replies |
| `SnippetClient.ItemRequestNamesItsSnippet` | fastly/vcl_snippet.go:201 | when the service id and name are slash-free, the path a delete sends reads back as the service id, version and name it was given |

## Left out

- The HTTP transport (`c.Get`, `c.PostForm`, `c.PutForm`, `c.Delete`) and the `Client` type are not part of this model. They are network I/O defined in other files. Each operation takes the transport's and decoder's outcome as a `Reply` parameter, and reports the request it would send.
- `decodeJSON`, the `mapstructure` and `form` tags and `Compatibool` encoding are not part of this model. A form body is represented by the input record it is encoded from.
- `statusResp` and its `Ok()` method live in another file. The acknowledgement is modelled as an `ok` flag and a message.
- The texts of `ErrMissingService`, `ErrMissingVersion` and `ErrMissingName` are defined in another file. They are modelled as distinct error values.
- The `*time.Time` timestamps are opaque optional values with no behaviour.
- `sort.Stable`'s own algorithm (insertion sort over blocks, then in-place merges) is replaced by a plain insertion sort. `StableSortUnique` shows that every stable sort by name gives the same result.
- Go decodes into a slice of pointers. The model sorts snippet values. A JSON `null` element (a nil pointer, on which `Less` would panic) and a `null` single-snippet reply are not modelled.
- `VCLSnippetType` is a Go string type, so a decoded snippet can carry a type string outside the ten constants, and a Go caller can leave `Type` unset (the empty string) in `CreateVCLSnippetInput` and `UpdateVCLSnippetInput` (`fastly/vcl_snippet.go:112`, `:146`), which is then sent as an empty `type` field. The model keeps the closed set of ten, so its inputs cannot express an unset or unknown type.
- Strings are modelled as sequences of characters. Byte order and code-point order agree on valid UTF-8; invalid UTF-8 is not modelled.
- Go's `int` and `uint` are 32 or 64 bits wide depending on the platform. The model assumes the 64-bit ranges for versions and priorities. No arithmetic is done on them.
- What the server does with the requests is not part of this model. That includes assigning ids, applying updates, and removing deleted snippets from later listings.
- The recorded-fixture integration test and its parallel execution depend on network fixtures.
