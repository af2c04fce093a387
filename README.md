# Dominating sets of path graphs

A model of `dominating.py`. The program represents a set of vertices of a path graph (vertices
`0 .. n-1`, edges between neighbours `i` and `i+1`) as a string of `n` characters. Character `i`
is `'1'` when vertex `i` is in the set. The program has four parts:

- `to_bin(n, size)` writes `n` in base 2, padded on the left with zeros to `size` characters.
  `to_int(g)` reads such a string back.
- `graphs_of_len(size)` lists `to_bin(i, size)` for every `i` below `2^size`, in ascending order.
- `is_dominating(g)` first asserts that `g` holds only binary digits. It then decides with the
  regular expression `^0?1(0{0,2}1)*0?$`.
- A driver prints the dominating sets of the five-vertex path.

The model has four modules, each in its own file:

- `Wrappers` (`wrappers.dfy`): the result type. It also names the two Python exceptions that
  can be raised: `ValueError` and `AssertionError`.
- `Encoding` (`encoding.dfy`): `format(n, 'b')` as `Binary`, `zfill` as `ZFill`, `to_bin` as
  `ToBin` and `to_int` as `ToInt`, together with the base-2 value `Value` of a numeral. The
  lemmas give the length of `to_bin`, both round trips, uniqueness of the encoding, and the
  agreement between numeric order and Python's string order.
- `Domination` (`domination.dfy`): the classifier. `Pattern`, `LeadOne` and `Tail` transcribe
  the regular expression part by part as recursive predicates. `Dominated` is the definition
  by neighbour checks. The central theorem, `PatternDominated`, shows that the two agree on
  every non-empty binary string. `DominatedRunLength` restates the result in terms of runs of
  zeros.
- `Enumeration` (`enumeration.dfy`) and `Driver` (`driver.dfy`): the enumerator and the
  driver's filter. The lemmas cover the count, distinctness, order and completeness of the
  enumeration. They also show that the filter keeps exactly the dominating sets, in ascending
  order.

Three edge cases that the code and its comments treat differently are stated as lemmas:

- The empty string is vacuously dominated, but the pattern needs a `'1'`, so
  `is_dominating("")` is false (`Domination.EmptyGraph`). Apart from this case, the comment at
  dominating.py:33 is exactly right (`Domination.PatternDominated`).
- `to_bin(0, 0)` is `"0"`, not the promised string of length 0 (`Encoding.ToBinZeroWidth`). So
  `graphs_of_len(0)` yields `["0"]` (`Enumeration.GraphsOfLenZero`).
- Python's `$` also matches just before one final newline. Both patterns in `is_dominating`
  therefore ignore one trailing `"\n"` (`Domination.MatchedPart`,
  `Domination.IsDominatingFinalNewline`).

For five vertices, a string such as `"10001"` or `"01000"` leaves a vertex undominated. The
classifier rejects it, so the driver does not print it (`Domination.Examples` and
`Driver.DominatingGraphsOfLenSpec`).

## Model

| member | source | states |
|---|---|---|
| `Encoding.Value` | dominating.py:20-21 | the base-2 value of a numeral of `k` digits is below `2^k` |
| `Encoding.Binary` | dominating.py:16 | `format(n, 'b')` is a non-empty string of binary digits with no leading zero (or is exactly "0") |
| `Encoding.ZFill` | dominating.py:16 | `zfill` gives length `max(len, width)`, ends with the original string and adds only '0's in front |
| `Encoding.ToBin` | dominating.py:15-16 | `to_bin(n, size)` is a non-empty string of binary digits whose base-2 value is `n` |
| `Encoding.ToInt` | dominating.py:20-21 | `to_int` of a binary string is below `2^len`; it fails exactly on the empty string, with `ValueError` |
| `Encoding.BinaryValue` | dominating.py:16 | `format(n, 'b')` reads back as `n` |
| `Encoding.ValueLeadingZeros` | dominating.py:16 | the zeros added by `zfill` do not change the value |
| `Encoding.ValueInjective` | dominating.py:20-21 | two numerals of the same length with the same value are the same string |
| `Encoding.BinaryFits` | dominating.py:14-16 | for a positive width, `format(n, 'b')` fits in `size` characters iff `n < 2^size` |
| `Encoding.ToBinShape` | dominating.py:14-16 | `to_bin(n, size)` is binary; its length is `size` when `size >= 1` and `n < 2^size`; otherwise, when `n >= 2^size`, it is the unpadded numeral, longer than `size` (no truncation) |
| `Encoding.ToBinZeroWidth` | dominating.py:14-16 | `to_bin(0, 0)` is "0", one character, despite the comment's "length size" |
| `Encoding.ToIntToBin` | dominating.py:15-21 | round trip: `to_int(to_bin(n, size)) == n` for every `n` and `size` |
| `Encoding.ToBinToInt` | dominating.py:15-21 | inverse round trip: every non-empty binary string `g` is `to_bin(to_int(g), len(g))` |
| `Encoding.ValueOrderIsLexOrder` | dominating.py:25-26 | for numerals of equal length, `Value(a) < Value(b)` iff `a < b` as Python strings |
| `Enumeration.GraphsOfLen` | dominating.py:25-26 | `graphs_of_len(size)` has `2^size` elements and element `i` is a binary string of value `i` |
| `Enumeration.GraphsOfLenShape` | dominating.py:24-26 | `graphs_of_len(size)` has `2^size` elements; element `i` is binary and decodes to `i`; for `size >= 1` it has length `size` |
| `Enumeration.GraphsOfLenDistinct` | dominating.py:25-26 | no string is produced twice |
| `Enumeration.GraphsOfLenAscending` | dominating.py:25-26 | for every size the strings are strictly ascending, both as numbers and as strings |
| `Enumeration.GraphsOfLenComplete` | dominating.py:24-26 | every binary string of length `size >= 1` is produced, at the position equal to its value |
| `Enumeration.GraphsOfLenZero` | dominating.py:25-26 | `graphs_of_len(0)` is `["0"]` |
| `Domination.Pattern` | dominating.py:34-40 | `0?1(0{0,2}1)*0?` matches only non-empty strings of binary digits |
| `Domination.LeadOne` | dominating.py:36-38 | `1(0{0,2}1)*0?` matches only strings of binary digits |
| `Domination.Tail` | dominating.py:37-38 | `(0{0,2}1)*0?` matches only binary digits, and a match of two or more characters has a '1' in its last two |
| `Domination.MatchedPart` | dominating.py:31-40 | what an anchored pattern must consume is `g` itself or `g` minus one final newline |
| `Domination.IsDominating` | dominating.py:30-40 | the only failure of `is_dominating` is the `AssertionError` of line 31 |
| `Domination.SplitAtOne` | dominating.py:33 | a selected vertex splits the domination check into two independent halves |
| `Domination.TailBlock` | dominating.py:37-38 | a string starting with the block "1", "01" or "001" matches `(0{0,2}1)*0?` iff its rest does |
| `Domination.TailNoBlock` | dominating.py:37-38 | "00" not followed by '1' matches no alternative of `(0{0,2}1)*0?` |
| `Domination.SkipBlock` | dominating.py:33 | after a '1', a block "1", "01" or "001" can be dropped without changing domination |
| `Domination.DominatedBlock` | dominating.py:33 | `SkipBlock` for a string that begins with the block |
| `Domination.NoBlockStep` | dominating.py:33-38 | three '0's after a '1', or two at the end, fail both the pattern and the neighbour check |
| `Domination.TailDominated` | dominating.py:33-38 | after a '1', the rest matches `(0{0,2}1)*0?` iff the path starting at that '1' is dominated |
| `Domination.PatternDominated` | dominating.py:33-40 | on binary digits, `0?1(0{0,2}1)*0?` matches iff the string is non-empty and every vertex is selected or adjacent to a selected one |
| `Domination.IsDominatingCorrect` | dominating.py:29-40 | for binary `g`, `is_dominating(g)` answers exactly "non-empty and dominated" |
| `Domination.IsDominatingRejectsNonBinary` | dominating.py:31 | `is_dominating(g)` fails iff `g` is neither binary nor binary followed by one newline |
| `Domination.IsDominatingFinalNewline` | dominating.py:31-40 | `is_dominating(g + "\n")` answers as `is_dominating(g)` for binary `g` |
| `Domination.EmptyGraph` | dominating.py:33-40 | the empty path is dominated, yet `is_dominating("")` is false |
| `Domination.DominatedRunLength` | dominating.py:35-39 | non-empty and dominated iff there is a '1', no run of three '0's, and at most one '0' at each end |
| `Domination.AcceptedHasOne` | dominating.py:35-40 | every accepted string contains a '1', so all-'0' strings are rejected |
| `Domination.Examples` | dominating.py:7 | "0", "00", "10001" and "01000" are rejected; "1", "01", "10", "11", "10010" and "10101" are accepted |
| `Driver.Survivors` | dominating.py:45-47 | the filtered sequence contains exactly the accepted strings of its input |
| `Driver.DominatingGraphsOfLen` | dominating.py:44-47 | the driver's output has at most `2^size` strings, each binary and accepted by `is_dominating` |
| `Driver.SurvivorsAscending` | dominating.py:45-47 | filtering keeps ascending order |
| `Driver.DominatingGraphsOfLenSpec` | dominating.py:44-47 | for `size >= 1` the driver's output is strictly ascending and contains exactly the dominating sets of the path on `size` vertices |

## Left out

- Printing: the driver (dominating.py:44-47) is modelled as the sequence it would print, for any size, without the output to stdout.
- The regular-expression engine (`re`, dominating.py:11): the two patterns are written out as predicates (`IsBinary`, `Pattern`, `LeadOne`, `Tail`), including the rule that `$` may match before a final newline.
- `is_dominating` returns a match object or `None`; the model returns its truth value.
- Encoding.ToInt: modelled only on strings of binary digits, because `int(g, 2)` also accepts signs, surrounding whitespace, underscores and a `0b` prefix, which are not modelled. The empty string raises `ValueError` in the model as in Python.
- Encoding.ToBin: `n` and `size` are natural numbers. For a negative `n`, `format` writes a '-' sign, and a negative `size` makes `zfill` a no-op; neither is modelled.
- Enumeration.GraphsOfLen: `size` is a natural number, because `2**size` with a negative `size` is a float and `range` raises `TypeError`; the generator's laziness is not modelled (the elements are a finite sequence).
- Optimised mode: the model assumes assertions run, as they do by default. Under `python -O` the assertion at dominating.py:31 is removed, and a non-binary argument gives `None` instead of raising `AssertionError`.
- Purity and idempotence of `is_dominating` hold for every Dafny function by construction, so no separate lemma states them.
- The exact list printed for five vertices is characterised by `Driver.DominatingGraphsOfLenSpec` rather than written out, because evaluating the enumeration on a literal size is beyond the verifier's resource limit.
