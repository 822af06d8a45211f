# Library of Congress call numbers: parsing and ordering

This project models the core of `books.py`, a small program that sorts books by their
Library of Congress call number.

A `Book` holds a call number, a title and an author.

`Book.call_num_parse` matches the call number against one regular expression. On a
match it returns four parts:

- the class (upper-case letters);
- the subject (1 to 4 digits, an optional fraction, and a terminating point), stripped;
- the cutter (a letter and digits), joined with an optional extracutter by one space;
- an optional four-digit year.

`Book.__lt__` compares two books part by part:

- the class and the subject without their spaces, as strings;
- then the cutter, as a string;
- then the year as a number, where a book without a year comes first.

`sorted` uses this order.

The model is pure, like the source: datatypes, functions and lemmas.

- `Text`: the character classes, maximal runs, `str.strip()`, `str.replace(' ', '')`,
  Python's `str` order (`StrLess`) and `int()` on digit strings.
- `CallNumbers`: the pattern as a scanner, `ScanMatch`, and `Parse` (`call_num_parse`).
  `ValidMatch` is the pattern read as a language. `PythonMatch` adds the choices
  Python's backtracking matcher makes: every greedy `\d+` and `\s*` takes all it can.
  The scanner returns exactly the Python match, and accepts exactly the strings of the
  language.
- `CallNumberLaws`: the shape of every parse result, and where a year can come from.
- `CallNumberBuild`: writing a call number from its parts, and parsing it back.
- `Books`: the book, the comparator and its laws. The comparator is proved equal to a
  lexicographic order on sort keys, and is a strict weak order.
- `Examples`: worked call numbers and the two-book example.

Python's `$` also matches just before a final line feed, and the model keeps that.
`\d` and `\s` are restricted to ASCII. `\s` is then tab, line feed, vertical tab, form
feed, carriage return, the four information separators (28 to 31) and space.

In `QA76.73.P98 L87 2013` and `QA76.73.P98 M37 2019` the cutters `P98 L87` and
`P98 M37` already differ, so `__lt__` never compares the years
(`Examples.LearningPythonFirst`).

## Model

| member | source | states |
|---|---|---|
| CallNumbers.Parse | books.py:66-90 | `call_num_parse`: `None` where the source prints "invalid call number", the four parts otherwise; its contract is carried by `ScanMatchIsPythonMatch` and `ScanAcceptsLanguage` (the match), `GroupsOfMatch` and `ParseShape` (the parts) and `RoundTrip` (parsing back what was written) |
| CallNumbers.Groups | books.py:81-88 | the group reading: subject and cutters stripped, extracutter joined by one space, an empty year as `None`; `GroupsOfMatch` states what it returns on a match |
| CallNumbers.ScanHead | books.py:78 | whenever it succeeds, its boundaries fit `^[A-Z]+\s*\d{1,4}(\.\d{1,4})?\s*\.\s*` followed by the cutter's letter; `HeadUnique` shows they are the only ones |
| CallNumbers.ScanTail | books.py:78 | whenever it succeeds after the cutter letter, its boundaries fit `\d+\s*([A-Z]\d+)?\s*(\d{4})?$` with every greedy run maximal; `TailUnique` and `TailAccepts` show it finds that cut whenever one exists |
| CallNumbers.ScanYear | books.py:78 | `(\d{4})?$` at a position: the scanner's end position is exactly the one at which an optional four-digit year followed by the end (or a final line feed) fits |
| CallNumbers.ScanMatch | books.py:78-79 | whenever the scanner succeeds, its boundaries are a match of the pattern with Python's greedy choices |
| CallNumbers.HeadUnique | books.py:78 | the class and subject part of a match is forced: any cut that fits `[A-Z]+\s*\d{1,4}(\.\d{1,4})?\s*\.\s*[A-Z]` is the one the scanner finds |
| CallNumbers.TailUnique | books.py:78 | after the cutter letter, the cut with greedy `\d+` and `\s*` is the one the scanner finds |
| CallNumbers.ScanMatchIsPythonMatch | books.py:78-79 | `re.match` has one answer: the scanner returns `m` if and only if `m` is the Python match |
| CallNumbers.GluedYear | books.py:78 | four year digits written against a digit run are taken by that greedy run, and what follows is only whitespace up to the end |
| CallNumbers.TailAccepts | books.py:78-79 | whenever some cut of the rest of the string fits the pattern after the cutter letter, the scanner succeeds there too, despite its greedy choices |
| CallNumbers.ScanAcceptsLanguage | books.py:78-80 | `re.match` succeeds exactly on the strings of the pattern's language |
| CallNumberLaws.GroupsOfMatch | books.py:81-88 | the returned parts are the match's groups: the subject from its first digit, the cutter and extracutter joined by one space, an empty year as `None`; stripping removes only the whitespace before the subject's digits |
| CallNumberLaws.ParseShape | books.py:78-88 | on success, the class is upper-case letters and is the string's whole leading run of them; the subject starts with 1 to 4 digits and ends with a point; the cutter is one or two `[A-Z]\d+` tokens joined by one space; the year is absent or four digits |
| CallNumberLaws.LeadingNonLetterRejected | books.py:78-79 | a call number that is empty or does not start with an upper-case letter (leading whitespace, say) is rejected |
| CallNumberLaws.YearNeedsSpace | books.py:78-86 | a returned year is the string's last four characters (before an optional final line feed) and is preceded by whitespace |
| CallNumberBuild.BuildSpelledOut | books.py:78 | a call number written from parts is class, number, optional fraction, point, cutter, optional spaced extracutter, optional spaced year |
| CallNumberBuild.BuildIsPythonMatch | books.py:78-79 | the boundaries of the written parts are the Python match of the written call number |
| CallNumberBuild.BuildFields | books.py:81-88 | reading the groups at those boundaries gives back the parts |
| CallNumberBuild.RoundTrip | books.py:66-90 | every call number written from valid parts parses, and `call_num_parse` returns exactly those parts |
| Books.Parsed | books.py:35-36 | the parse result of a book the comparator can compare is well formed: upper-case class, a subject of 1 to 4 leading digits ending with a point, one or two cutter tokens, an absent or four-digit year |
| Books.YearValue | books.py:51-52 | `int(year) if year else None`: no value exactly when there is no year, and otherwise a number below 10000 |
| Books.PartsLess | books.py:38-63 | the body of `__lt__` on two parse results; `PartsLessIsKeyLess`, `FirstDifferenceDecides` and `YearTieBreak` state what it decides |
| Books.Less | books.py:22-63 | `a < b` for two books whose call numbers parse; the strict-weak-order lemmas below are stated on it |
| Books.PartsLessIsKeyLess | books.py:38-63 | `__lt__` holds exactly when the sort key (class and subject without spaces, cutter, year with a missing year lowest) of the first book is lexicographically less |
| Books.KeyLessIrreflexive | books.py:38-63 | no sort key is less than itself |
| Books.KeyLessTransitive | books.py:38-63 | the order on sort keys is transitive |
| Books.KeyLessIncomparable | books.py:38-63 | two sort keys are unordered exactly when they are equal |
| Books.LessIrreflexive | books.py:22-63 | no book sorts before itself |
| Books.LessAsymmetric | books.py:22-63 | two books never sort before each other both ways |
| Books.LessTransitive | books.py:22-63 | `__lt__` is transitive |
| Books.LessIncomparable | books.py:22-63 | two books are unordered exactly when their sort keys are equal |
| Books.IncomparableTransitive | books.py:22-63 | being unordered is transitive, so `__lt__` is a strict weak order and `sorted` has a well-defined result |
| Books.FirstDifferenceDecides | books.py:38-48 | the first of class, subject and cutter that differs decides the order by string comparison, with class and subject compared after removing spaces |
| Books.YearTieBreak | books.py:50-63 | with class, subject and cutter equal: two years compare by numeric value, a book without a year sorts before one with a year, and otherwise neither book is less |
| Text.SpanEnd | books.py:78 | a greedy run of one character class: it ends where the class stops |
| Text.SpanEndUnique | books.py:78 | a run that cannot grow any further is the greedy run |
| Text.Strip | books.py:82-84 | `str.strip()`; `StripTrims` states what it keeps and removes |
| Text.StripTrims | books.py:82-84 | `str.strip()` keeps a slice: what it removes on both sides is whitespace, and the kept part neither starts nor ends with whitespace |
| Text.StripUnchanged | books.py:83-84 | a string that neither starts nor ends with whitespace is unchanged by `strip()` |
| Text.StripLeading | books.py:82 | stripping a string that ends with a non-space character removes exactly its leading whitespace |
| Text.RemoveSpaces | books.py:39-44 | `replace(' ', '')` leaves no space, and keeps every other character and only those |
| Text.RemoveSpacesConcat | books.py:39-44 | `replace(' ', '')` acts character by character: a space is dropped, any other character kept, and the result of a concatenation is the concatenation of the results, so order is kept |
| Text.RemoveSpacesNoSpace | books.py:39-44 | a string without spaces is unchanged by `replace(' ', '')` |
| Text.StrLess | books.py:39-48 | Python's `str <`; `StrLessIsFirstDifference` ties it to the first-difference definition |
| Text.StrLessIsFirstDifference | books.py:39-48 | Python's `str <` holds exactly when the strings agree up to some position, after which the first ends while the second goes on, or the first has the smaller character |
| Text.StrLessIrreflexive | books.py:39-48 | no string is less than itself |
| Text.StrLessTrichotomy | books.py:39-48 | two different strings are ordered one way, and never both ways |
| Text.StrLessTransitive | books.py:39-48 | `str <` is transitive |
| Text.DigitsValue | books.py:51-52 | `int()` of `n` digits is below `10^n` |
| Examples.ExtracutterAndYear | books.py:83-86 | `QA76.73.C15 B73 2019` parses to class `QA`, subject `76.73.`, cutter `C15 B73` and year `2019` |
| Examples.GluedYearIsCutter | books.py:78 | in `QA76.73.C152019` the year digits belong to the cutter `C152019`, and there is no year |
| Examples.LeadingSpaceRejected | books.py:78-79 | ` QA76.73.C15`, with a leading space, is rejected |
| Examples.ParsesAs | books.py:66-90 | a call number written out from valid parts, piece by piece, parses into those parts |
| Examples.SubjectsCompareAsStrings | books.py:43-44 | subjects compare as strings: a book at `QA10.C15` sorts before one at `QA2.C15` |
| Examples.LearningPythonFirst | books.py:22-63 | `QA76.73.P98 L87 2013` sorts before `QA76.73.P98 M37 2019`, and the cutter decides |

## Left out

- `read_books`, `print_books`, `main` and `parse_args` (books.py:105-148) are left out. They read a tab-separated file, print, and parse the command line.
- `Book.__repr__` (books.py:92-102) is left out. It only formats text for printing.
- Python's `sorted` (books.py:128) is not modelled. The model proves instead that `__lt__` is a strict weak order, which is what `sorted` needs.
- The message `call_num_parse` prints on failure (books.py:89-90) is left out. The model returns `None` where the source prints and returns `None`.
- Comparing a book whose call number does not parse is left out. The source then indexes `None` and raises `TypeError`, so `Books.Less` requires both call numbers to parse.
- The `ValueError` that `int()` can raise (books.py:51-52) is not modelled. It cannot occur: a parsed year is four ASCII digits.
- Non-ASCII characters that Python's `\d` and `\s` accept are left out. Examples are Arabic-Indic digits and no-break space. The model's digits are `0`-`9`, and its whitespace is the ASCII characters that `\s` accepts.
- The title and author are carried in `Books.Book` but never compared, as in the source.
