# journald export parser: data layer

This project models the data layer of a decoder for the journald "export"
format, in which a log stream is a list of records (entries) and each record
an ordered list of `key=value` fields (lines). It covers three pieces:

- the text-line decoder (`Lines`): a field is a key and a value; a text
  line is split at its first `=`, so the key never holds a `=` while the value
  may hold any number of them; a line with no `=` at all is malformed. The
  source aborts on a malformed line; here that abort is the `Failure` case of
  a `Result`, carrying the offending line.
- the record (`Entries.Entry`): a class whose field list starts empty and
  grows only by appending one field at the end.
- the result (`Batches.Batch`): a class whose record list starts empty and
  grows only by appending one record at the end. A record is passed to it by
  value, so the result stores that record's fields; equality of results is
  equality of these sequences, as the derived structural equality compares
  them.

Besides each operation's contract, the model proves that splitting is unique
(any separator-free key, `=`, and value is decoded back to exactly that key
and value), that decoding and encoding `key=value` are inverse to each other,
and that a caller adding fields and records one by one reads them back in
insertion order.

## Model

| member | source | states |
|---|---|---|
| `Lines.New` | src/line.rs:10-20 | the key and value given to the constructor are returned unchanged by the key and value getters |
| `Lines.FindSeparator` | src/line.rs:25 | the search behind the split finds nothing exactly when the line holds no `=`; otherwise it finds a `=` with no `=` before it |
| `Lines.FromString` | src/line.rs:23-35 | decoding succeeds exactly when the line holds a `=`; on success the key holds no `=` and key, `=`, value rebuild the line; on failure the error carries the line |
| `Lines.FromStr` | src/line.rs:37-41 | decoding a borrowed line obeys the same laws: success exactly when a `=` is present, separator-free key, key + `=` + value equals the input, error carries the input |
| `Lines.FromStrAgrees` | src/line.rs:37-41 | the borrowed conversion gives the same field or the same failure as the owned one on every input |
| `Lines.SplitAtFirstSeparator` | src/line.rs:25-33 | for any separator-free key and any value (which may hold `=`), the line key + `=` + value decodes to exactly that key and value |
| `Lines.DecodeEncode` | src/line.rs:25-33 | decoding the text form of a field gives the field back if and only if its key holds no `=` |
| `Lines.EncodeDecode` | src/line.rs:25-33 | every line that decodes is rebuilt exactly by writing its key, `=`, and its value |
| `Lines.ExampleKeyValue` | src/line.rs:47-50 | `key=value` decodes to the field with key `key` and value `value` |
| `Lines.ExampleMoreSeparators` | src/line.rs:53-57 | `key=value=value1=value2` decodes to key `key` and value `value=value1=value2` |
| `Lines.ExampleNoSeparator` | src/line.rs:59-63 | `key!value` fails as an invalid line |
| `Entries.Entry.constructor` | src/entry.rs:9-11 | a new record has no fields |
| `Entries.Entry.Default` | src/entry.rs:3-6 | the default record has no fields, the same as a new one |
| `Entries.Entry.AddLine` | src/entry.rs:13-15 | the field list becomes the old list with the new field appended: one longer, earlier fields unchanged and in order |
| `Entries.Entry.GetLines` | src/entry.rs:17-19 | returns the current field list and changes nothing |
| `Entries.LinesAfterAdding` | src/entry.rs:9-19 | starting from a new record and adding fields one by one, the getter returns exactly those fields in insertion order |
| `Batches.Batch.constructor` | src/batch.rs:9-13 | a new result has no records |
| `Batches.Batch.AddEntry` | src/batch.rs:15-17 | the record list becomes the old list with the given record appended: one longer, earlier records unchanged and in order |
| `Batches.Batch.GetEntries` | src/batch.rs:19-21 | returns the current record list and changes nothing |
| `Batches.EntriesAfterAdding` | src/batch.rs:9-21 | starting from a new result and adding records (each built field by field) one by one, the getter returns exactly those records, each with its fields, in insertion order |

## Left out

- The byte-by-byte stream parser (line-mode state machine, multiline binary fields, the 8-byte length prefix, record boundaries): its source file is not part of this model.
- UTF-8 handling of Rust strings: text is a sequence of characters, and the separator is the character `=`.
- The text of the abort message for a malformed line: only the fact of failure (with the offending line) is modelled.
- The derived `Debug` output: it has no behaviour to model. Derived equality is structural equality of Dafny values and sequences.
- Borrowing: the getters return references in the source; here they return the current value.
- Batches.Batch.AddEntry: the source moves the record into the result; the model copies the record's fields, so it does not model ownership transfer, only that later changes to the caller's record object cannot reach the result.
