# Random name picker: a Dafny model

The picker is a single page (`app.py`). Under its widgets it keeps two
ordered lists of strings in the session state: `names_list`, the pool of
names that can still be drawn, and `history`, the names drawn so far, oldest
first. Three buttons change them:

- **Load/Update** parses the pasted text. It splits the text on newlines,
  strips each line and drops blank lines. A non-empty result *replaces* the
  pool; an empty result changes nothing.
- **Delete All** empties both lists.
- **Pick Randomly** is shown only while the pool is non-empty. It draws
  `num_to_pick` names (between 1 and the pool size) with `random.sample`.
  It then removes each drawn name from the pool with `list.remove` and
  appends it to the history.

The model is organised as follows:

- `picker.dfy` (module `NamePicker`) models `app.py`. The parser is a pure
  function, `ParseNames`, with lemmas about it. The session state is the
  class `SessionState`. Its fields `namesList` and `history` are
  `seq<string>`, and its methods reassign them the way the page does.
- `strings.dfy` (module `Strings`) models `str.strip()` and
  `str.split('\n')`.
- `lists.dfy` (module `Lists`) models `list.remove` and the order relation
  it keeps.
- `sampling.dfy` (module `Sampling`) models `random.sample` as a
  nondeterministic choice. Any `k` distinct positions of the pool may come
  out, and nothing is claimed about how likely each choice is.

The object invariant `SessionState.Valid` says that both lists hold only
names: each is non-blank and has no leading or trailing whitespace. Every
method preserves it.

`str.strip()` without arguments removes the characters for which
`str.isspace` holds. `Strings.IsSpace` lists those code points. The lemmas
do not depend on that list, except that the newline counts as whitespace.

One behaviour worth knowing: `list.remove` deletes the *first* element equal
to the drawn name, not necessarily the element at the sampled position.
With duplicates in the pool, the remaining pool can therefore differ in order
from "the pool with the sampled positions deleted". For example, drawing the
second `A` from `[A, B, A]` leaves `[B, A]`, not `[A, B]`. The model follows
the code. Its contracts say what still holds: the same multiset is removed,
and the survivors keep their relative order.

## Model

| member | source | states |
|---|---|---|
| `NamePicker.ParseNames` | app.py:49 | every parsed entry is a name: non-empty, with no leading or trailing whitespace; there are at most as many entries as lines |
| `NamePicker.CleanLines` | app.py:49 | stripping the lines and dropping the blank ones yields only names, never more than there were lines |
| `NamePicker.CleanOneLine` | app.py:49 | a blank line contributes nothing; any other line contributes exactly its stripped text |
| `NamePicker.CleanLinesAppend` | app.py:49 | the parse works line by line and keeps order: the names of earlier lines come first |
| `NamePicker.CleanLinesCount` | app.py:49 | the parse has exactly one entry per non-blank line |
| `NamePicker.CleanLinesEmpty` | app.py:49-50 | nothing survives exactly when every line is blank |
| `NamePicker.ParseNamesEmpty` | app.py:49-50 | the parse is empty exactly when the text is empty or only whitespace, which is when Load/Update warns |
| `NamePicker.CleanNames` | app.py:49 | lines that are already names pass through unchanged |
| `NamePicker.ParseJoinRoundTrip` | app.py:49 | names written one per line parse back to exactly those names, in order, one entry per line |
| `NamePicker.RemoveFirstKeepsNames` | app.py:90 | `list.remove` on a list of names leaves a list of names, so the pool invariant survives each removal |
| `NamePicker.SessionState.constructor` | app.py:29-32 | a new session starts with an empty pool and an empty history |
| `NamePicker.SessionState.LoadUpdate` | app.py:47-54 | a non-empty parse replaces the pool with exactly the parsed list; an empty parse (blank input) leaves the pool as it was; the history is never touched; the reported count is the parse length |
| `NamePicker.SessionState.DeleteAll` | app.py:58-60 | both lists are empty afterwards, whatever they held |
| `NamePicker.SessionState.MoveToHistory` | app.py:89-91 | every `remove` finds its name; the pool becomes the old pool with the selected names removed one by one; the history becomes the old history followed by the selected names in order |
| `NamePicker.SessionState.PickRandomly` | app.py:67-91 | with an empty pool nothing happens; otherwise the selection comes from `numToPick` distinct pool positions, the pool shrinks by exactly that many and keeps the order of the survivors, the history gains the selection at its end, and the multiset of pool plus history is unchanged |
| `Strings.IsSpace` | app.py:49 | the code points for which `str.isspace` holds, which `str.strip()` removes |
| `Strings.TrimStart` | app.py:49 | leading-whitespace removal: the part dropped is all whitespace and the result does not start with whitespace |
| `Strings.TrimStartSuffix` | app.py:49 | what leading-whitespace removal keeps is a suffix of the input |
| `Strings.TrimEnd` | app.py:49 | trailing-whitespace removal: the part dropped is all whitespace and the result does not end with whitespace |
| `Strings.TrimEndPrefix` | app.py:49 | what trailing-whitespace removal keeps is a prefix of the input |
| `Strings.Strip` | app.py:49 | `str.strip()` returns a string with no leading or trailing whitespace |
| `Strings.StripSlice` | app.py:49 | the stripped string is a slice of the input, and everything cut off on both sides is whitespace |
| `Strings.StripBlank` | app.py:49 | a line strips to the empty string exactly when it is all whitespace, which is the `if n.strip()` filter |
| `Strings.StripTrimmed` | app.py:49 | stripping a string with no surrounding whitespace changes nothing |
| `Strings.SplitLines` | app.py:49 | `split('\n')` yields at least one piece, and no piece contains a newline |
| `Strings.JoinSplit` | app.py:49 | joining the pieces of a split with newlines gives back the input text |
| `Strings.SplitFirstLine` | app.py:49 | splitting text whose first line is `a` yields `a`, then the split of the rest |
| `Strings.SplitJoin` | app.py:49 | splitting lines joined by newlines gives back those lines, provided no line contains a newline |
| `Strings.AllSpaceJoin` | app.py:49 | text built from lines is all whitespace exactly when every line is |
| `Lists.IndexOf` | app.py:90 | the position `list.remove` deletes is an occurrence of the name with no earlier occurrence |
| `Lists.RemoveFirst` | app.py:90 | `list.remove` shortens the list by one and takes exactly one copy of the name out of its multiset |
| `Lists.RemoveEach` | app.py:89-90 | the pool after one `list.remove` per selected name, in selection order |
| `Lists.RemoveEachCounts` | app.py:89-90 | removing the selected names one by one removes exactly that multiset, and the length drops by the number of names |
| `Lists.DeleteAtKeepsOrder` | app.py:90 | deleting one position keeps the relative order of the other elements |
| `Lists.RemoveFirstKeepsOrder` | app.py:90 | `list.remove` keeps the relative order of the elements left |
| `Lists.RemoveEachKeepsOrder` | app.py:89-90 | after all removals the pool is a subsequence of the old pool |
| `Lists.SubsequenceTrans` | app.py:89-90 | a subsequence of a subsequence is a subsequence, which chains the order guarantee across the loop's removals |
| `Sampling.Select` | app.py:80 | the drawn names are the pool entries at the drawn positions, in draw order |
| `Sampling.SampleWithinPool` | app.py:80 | names drawn from distinct positions form a sub-multiset of the pool, so no name is drawn more often than it occurs |
| `Sampling.Sample` | app.py:80 | `random.sample` returns `k` names taken from `k` distinct, in-range positions, and their multiset is contained in the pool's |

## Left out

- Page setup, CSS, the sidebar layout, columns, the success, warning and info
  messages, and `st.rerun` (app.py:1-25, 34-45, 52-54, 61, 63-64, 82-86, 95)
  are presentation only. `LoadUpdate` returns the count that the success
  message shows.
- The history toggle and its newest-first display (app.py:97-108) only read
  the state.
- The `number_input` widget (app.py:70-75) is modelled only through the
  bound it enforces, `1 <= numToPick <= |namesList|`. This bound is a
  precondition of `PickRandomly`. The draw count is not clamped, because
  the code relies on the widget and does not clamp it.
- `Sampling.Sample`: the randomness of `random.sample` is not modelled. Any
  choice of `k` distinct positions is allowed, and uniform distribution is
  not claimed. The ValueError for `k` larger than the population is a
  precondition, because the widget never allows that case.
- `Lists.RemoveFirst`: the ValueError of `list.remove` for a missing element
  is its precondition. `MoveToHistory` proves that every call meets it.
- Deduplication, the duplicate count, fixed (always-included) picks, and
  saving or loading the lists from a file are not in `app.py`. They are not
  part of this model.
- The session's lifetime, and the fact that Streamlit re-runs the script on
  every interaction, are not modelled. Each button press is one method call
  on one `SessionState` object.
