# PHPRtfLite headers and check boxes, modelled in Dafny

This project models two pieces of PHPRtfLite's RTF emission.

**Headers** (`PHPRtfLite_Container_Header`). A header has a type name:
`all`, `left`, `right`, `first`, or anything else. When it is rendered, the type
is checked against the owning document's two layout flags:

- odd/even-different pages;
- special layout for the first page.

The check either yields the RTF control word for the header group or throws.
Creating a `first` header switches the document's first-page flag on. Rendering
appends to the document's stream, in this order:

- an optional position token;
- the group opener;
- the children's output;
- the group closer.

Footnotes and endnotes are always refused.

**Check boxes** (`PHPRtfLite_FormField_CheckBox`). Rendering returns a fixed
field template with the default value inserted verbatim.

Modules:

- `Wrappers`: `Option`, `Result` and `Outcome`. A PHP exception becomes a `Failure` or `Fail` value.
- `Decimal`: how the integer twips offset is spelt in the position token, with a parser that reads it back.
- `Stream`: the stream as an append-only list of writes. `RenderChildren` is the container's in-order child rendering.
- `Headers`: the `Kind` and `Doc` datatypes, header creation, `setPosition`, the type-code decision table, the note rejections and `Render`. `Render` returns the list of writes together with a pass/fail outcome.
- `CheckBox`: the template, with a parser that recovers the value.

Two details of the code that the model keeps:

- The check box template keeps the runs of spaces in CheckBox.php:37-39 (two before `{\*\formfield`, four before `{\fftype1`, two before the closing `}`).
- A failing render may already have written the position token: Header.php:185 writes it before line 188 computes the type code. `Render` and `RenderFailureWrites` model this.

## Model

| member | source | states |
|---|---|---|
| Headers.KindOf | lib/PHPRtfLite/Container/Header.php:38-41 | The type name selects one of the four kinds, or `Other` exactly when it is none of the four constants. The name can always be read back from the kind. |
| Headers.New | lib/PHPRtfLite/Container/Header.php:70-78 | A new header has the given kind, no position and destination `header`. The document's first-page flag is on afterwards iff it was on before or the type is `first`. The odd/even flag is unchanged. |
| Headers.NewFirstEnablesFirstPage | lib/PHPRtfLite/Container/Header.php:75-77 | Creating a `first` header forces the first-page flag to true and keeps the odd/even flag. |
| Headers.NewOtherLeavesDocument | lib/PHPRtfLite/Container/Header.php:70-78 | Creating a header of any other type leaves the document exactly as it was. |
| Headers.NewFirstTypeCodeSucceeds | lib/PHPRtfLite/Container/Header.php:126-129 | A freshly created `first` header passes the type check with `headerf` if the flags are not changed afterwards. |
| Headers.SetPosition | lib/PHPRtfLite/Container/Header.php:85-88 | Setting the position replaces only the stored offset. Kind and destination are untouched, and the document is not involved. |
| Headers.TypeAsRtfCode | lib/PHPRtfLite/Container/Header.php:97-137 | An accepted type code decodes back to the header's own kind. A failure names the header's kind, or reports the undefined type name. An `Other` kind never succeeds. |
| Headers.TypeCodeOfAll | lib/PHPRtfLite/Container/Header.php:101-108 | `all` succeeds iff odd/even-different is off, yielding the bare destination. Otherwise it fails with the odd/even rule. |
| Headers.TypeCodeOfSides | lib/PHPRtfLite/Container/Header.php:110-124 | `left` and `right` succeed iff odd/even-different is on, yielding destination + `l` and destination + `r`. Otherwise they fail with the not-odd/even rule. |
| Headers.TypeCodeOfFirst | lib/PHPRtfLite/Container/Header.php:126-132 | `first` succeeds iff the first-page flag is on, yielding destination + `f`. Its outcome is the same whichever value the odd/even flag has. |
| Headers.TypeCodeOfUndefined | lib/PHPRtfLite/Container/Header.php:134-135 | A header of kind `Other` always holds a name outside the four constants (the `HeaderKind` type rules the others out), and it fails as undefined, whatever the flags. |
| Headers.TypeCodesDistinguishKinds | lib/PHPRtfLite/Container/Header.php:101-132 | Two accepted headers of one destination get the same type code only if they have the same kind. |
| Headers.FirstTypeCheckedAgainstLatestFlags | lib/PHPRtfLite/Container/Header.php:126-132 | The check reads the flags at render time: a `first` header fails once the first-page flag is switched off after creation. |
| Headers.AddFootnote | lib/PHPRtfLite/Container/Header.php:148-151 | Adding a footnote fails with the footnote error for every text, font and paragraph format. |
| Headers.AddEndnote | lib/PHPRtfLite/Container/Header.php:162-165 | Adding an endnote fails with the endnote error for every text, font and paragraph format. |
| Headers.PositionTokenRoundTrip | lib/PHPRtfLite/Container/Header.php:185 | The position token is backslash, destination, `y`, then the offset in decimal. The offset can be read back from it exactly. |
| Headers.PositionWrites | lib/PHPRtfLite/Container/Header.php:184-186 | One position token is written iff a position is set, and it carries that offset. Otherwise nothing is written. |
| Headers.Render | lib/PHPRtfLite/Container/Header.php:180-191 | Render passes iff the type check passes, and fails with the type check's error. Its writes always begin with the position writes. |
| Headers.RenderSuccessWrites | lib/PHPRtfLite/Container/Header.php:184-190 | On success the writes are: the position writes, then `{\` + code + space, then the children's writes in order, then `\par}` CRLF. Nothing else is written. |
| Headers.RenderSuccessText | lib/PHPRtfLite/Container/Header.php:180-191 | On success the stream text is: position token, group opener, each child's text in insertion order, group closer. |
| Headers.RenderFailureWrites | lib/PHPRtfLite/Container/Header.php:184-188 | When the type check fails, only the position token (if any) has been written. There is no group opener, no child output and no `\par}`. |
| Headers.RenderPositionedAllHeader | lib/PHPRtfLite/Container/Header.php:184-188 | An `all` header positioned at 567 twips (1 cm, assuming `TWIPS_IN_CM` is 567) without odd/even pages first writes `\headery567`, then `{\header `. |
| Stream.RenderChildrenAppend | lib/PHPRtfLite/Container/Header.php:189 | Rendering the children of `a + b` writes the children of `a`, then those of `b`. |
| Stream.RenderChildrenText | lib/PHPRtfLite/Container/Header.php:189 | The children's output is their texts concatenated in insertion order, each once. |
| Stream.ThreeChildrenInOrder | lib/PHPRtfLite/Container/Header.php:189 | Children A, B, C leave exactly A's text, then B's, then C's. |
| Decimal.NatToString | lib/PHPRtfLite/Container/Header.php:185 | A whole number is spelt with decimal digits only and has no leading zero. |
| Decimal.IntToStringRoundTrip | lib/PHPRtfLite/Container/Header.php:185 | The decimal spelling of any integer, including a negative one, parses back to that integer. |
| Decimal.IntToStringInjective | lib/PHPRtfLite/Container/Header.php:185 | Distinct integers are spelt differently, so distinct offsets give distinct position tokens. |
| CheckBox.Render | lib/PHPRtfLite/FormField/CheckBox.php:35-40 | The output is the fixed prefix, then the value starting right after the prefix, then `}}`. Its length is the prefix length plus the value length plus 2. |
| CheckBox.DefaultValueOfRender | lib/PHPRtfLite/FormField/CheckBox.php:35-42 | The default value can be read back unchanged from the rendered field. |
| CheckBox.RenderOfDefaultValue | lib/PHPRtfLite/FormField/CheckBox.php:35-42 | Any text that reads as a field with value v is exactly the rendering of v. |
| CheckBox.RenderInjective | lib/PHPRtfLite/FormField/CheckBox.php:35-42 | Distinct default values produce distinct fields. |
| CheckBox.RenderPrefixShared | lib/PHPRtfLite/FormField/CheckBox.php:35-40 | The prefix is the same for every default value. |
| CheckBox.RenderEndsWithResult | lib/PHPRtfLite/FormField/CheckBox.php:40 | The field ends with `{\fldrslt ` + value + `}}`. |
| CheckBox.UncheckedEnding | lib/PHPRtfLite/FormField/CheckBox.php:40 | For value `0` the field ends with `{\fldrslt 0}}`. |
| CheckBox.RenderEmbedsValue | lib/PHPRtfLite/FormField/CheckBox.php:40 | The value is inserted unescaped, so it occurs in the output as one contiguous piece, whatever characters it holds. |

## Left out

- Twips conversion: the source computes `round(TWIPS_IN_CM * offset)` in floating point, and the constant is defined in `PHPRtfLite.php`, which is not part of this model. The model stores the offset as an already-converted integer number of twips.
- Decimal.IntToString: PHP prints the float result of `round`, so a negative zero would print as `-0` and very large values in exponent notation. The model prints plain integers.
- Headers.KindOf: the source compares with PHP's loose `==`. For string type names this is plain equality, which is what the model does. Non-string type values (an integer `0` equals `'all'` under PHP 7) are not modelled.
- Exception messages and the exception class are modelled as `Error` variants.
- Headers.TypeAsRtfCode: line 135 passes the type name as the second argument of the exception constructor. For PHP's `Exception` that argument is the integer code. Unless `PHPRtfLite_Exception` (not part of this model) overrides the constructor, a non-numeric name such as `foo` makes the constructor call itself fail: a fatal error in PHP 5, an `Error` in PHP 7, a `TypeError` in PHP 8. Either way the render stops after at most the position token. `TypeNotDefined` stands for whatever error line 135 really raises, and the name it records is not a promise about any message text.
- The footer subclass is not part of this model. The destination name is a field of `Header`. `New` always sets it to `header` (line 61), and every other member works for any destination.
- `getRtfType` is a plain accessor, modelled as the `rtfType` field.
- The parent container's `render` is not part of this model. Each child is represented by the list of writes it makes, and the children's lists are appended in insertion order.
- The document object, its stream and the `Font`/`ParFormat` arguments are external:
  - the document is its two flags;
  - the stream is the returned list of writes;
  - fonts and paragraph formats are opaque type parameters.
- CheckBox: `_defaultValue` belongs to the form-field base class, which is not part of this model. It is modelled as a string. PHP's conversion of non-string values is not modelled.
