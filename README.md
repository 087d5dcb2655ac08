# NiceGUI class reference generator and chat message props, in Dafny

This project models two pieces of NiceGUI.

The first is the generator behind the "Reference" sections of the NiceGUI website,
`website/documentation/reference.py`. For a class, it:

- filters the MRO down to the classes of `nicegui.` modules;
- collects the public functions, methods, properties and bindable properties those classes define, walking the MRO from the base upwards so that a more derived class overrides;
- splits the collected attributes into properties and methods by `callable`;
- shows each group in name order with a one-line signature text;
- lists the ancestors.

It also includes the de-indentation applied to docstrings before they are rendered.

The second is the constructor of the chat message element, `nicegui/elements/chat_message.py`. It fills the element's `_props` dictionary with the text as a list of parts, the optional `name`, `label`, `stamp` and `avatar` when they are given, and `sent`.

Python's reflection is replaced by plain records:

- a class is its `__name__`, its `__module__`, its own `__dict__` and the names `dir()` lists for it;
- an attribute of a `__dict__` is a function, a method, a `property`, a `BindableProperty` or anything else;
- a signature is the parameter list `inspect.signature` reports, and its return annotation.

Annotations and default values carry the text that `inspect.formatannotation` and `repr` give for them.

The Python `str` operations the code relies on are written out in module `PyStr`: `startswith`, `lstrip`/`rstrip`/`strip` of one character, `replace`, `join`, `splitlines`, `isspace`, and the code-point ordering `sorted` uses. They follow Python 3 semantics on sequences of code points.

Files:

- `wrappers.dfy`: `Option` and `Result`.
- `pystr.dfy`: the string operations and their lemmas.
- `reference.dfy`: the generator. Loops and step-by-step string building are methods, each proved equal to a specification function. The properties are proved about those functions.
- `chat_message.dfy`: the `ChatMessage` class, whose constructor writes its `props` map field.

## Model

| member | source | states |
|---|---|---|
| Reference.CollectAttributes | website/documentation/reference.py:16-20 | The nested loop over `reversed(mro)` and `dir(base)` leaves exactly `Collected(mro)`. That map is built from the base class up, each class overwriting with the names it lists, defines and does not start with `_`. |
| Reference.CollectedOnlyDocumented | website/documentation/reference.py:17-20 | A collected name never starts with `_`, and some class of the MRO both lists it in `dir` and holds a function, method or (bindable) property under it in its own `__dict__`. |
| Reference.CollectedIsMostDerived | website/documentation/reference.py:17-20 | Suppose a class lists and defines a public name, and no more derived class does. Then the name is collected, with the value `getattr` gives on that class: the most derived definition wins. |
| Reference.NiceguiMroMembers | website/documentation/reference.py:14 | The filtered MRO holds exactly the classes whose module name starts with `nicegui.`. |
| Reference.NiceguiMroConcat | website/documentation/reference.py:14 | Filtering distributes over concatenation, so the filtered MRO keeps the MRO order. |
| Reference.PartitionAttributes | website/documentation/reference.py:21-22 | `properties` and `methods` have disjoint names, together give back all collected attributes, and hold only non-callable and only callable values respectively. |
| Reference.SortedNames | website/documentation/reference.py:27 | The names of a group come out strictly increasing in code-point order. They are exactly the group's names, each once. |
| Reference.DescribeProperties | website/documentation/reference.py:27-28 | The loop over the sorted properties gives, for each name in order, the entry with that property's description. |
| Reference.DescribeMethods | website/documentation/reference.py:34-35 | The loop over the sorted methods gives, for each name in order, the entry with that method's signature description. |
| Reference.GenerateClassDoc | website/documentation/reference.py:12-40 | The shown properties are exactly the non-callable collected attributes of the `nicegui.` MRO, strictly sorted, each with its property description. The shown methods are the same for the callable ones, with their method description. The ancestors are the names of the filtered MRO without its first class. |
| Reference.PropertyDescription | website/documentation/reference.py:52-65 | A bindable property (`None`) gives `: BindableProperty`. Otherwise the text is empty iff there is no return annotation, no setter and no deleter; it starts with `: T` when the getter is annotated `T`; it ends with ` (deletable)` when there is a deleter, and with ` (settable)` when there is a setter but no deleter. |
| Reference.PropertySignatureDescription | website/documentation/reference.py:52-65 | The step-by-step construction gives exactly the description above. |
| Reference.PropertyDescriptionRoundTrip | website/documentation/reference.py:56-64 | The description determines the getter's annotation and both flags: reading it back gives all three, as long as the annotation text itself does not end in `)`. |
| Reference.MethodSignatureDescription | website/documentation/reference.py:68-88 | The loop with `continue` on `self`, the join and the return-type suffix give exactly `MethodDescription`. That is the rendered non-`self` parameters joined by `, ` in parentheses, followed by ` -> ` and the cleaned return type when there is one. |
| Reference.ParameterString | website/documentation/reference.py:71-80 | The loop body builds a parameter's text as the name, then `: T` with quotes stripped, then the default, with `*` in front of a var-positional parameter. |
| Reference.ShownMembers | website/documentation/reference.py:70-73 | A parameter is rendered iff it is one of the signature's parameters and is not named `self`. |
| Reference.ShownConcat | website/documentation/reference.py:70-73 | Skipping `self` keeps the remaining parameters in signature order. |
| Reference.RenderParameterRoundTrip | website/documentation/reference.py:71-80 | From a rendered parameter one reads back whether it is var-positional (a leading `*`) and its name, since annotation and default only come after the name. Requires a plain identifier as the name. |
| Reference.ParseStarredName | website/documentation/reference.py:71-80 | A plain name, with or without the leading `*`, followed by text that starts with `:` or a space, reads back as that flag and that name. |
| Reference.RenderParameterDefault | website/documentation/reference.py:77-78 | A parameter with a default ends with ` = [...]` when the default is callable, else with ` = ` and its repr. |
| Reference.MethodDescriptionShape | website/documentation/reference.py:82-87 | The description starts with the parenthesised parameter list. It has nothing after it iff there is no return annotation, and otherwise ` -> ` and the cleaned return type. |
| Reference.CleanReturnTypePlain | website/documentation/reference.py:87 | A return type without quotes at its ends and without `typing_extensions.` or `typing.` in it is shown unchanged. |
| Reference.CleanReturnTypeQualified | website/documentation/reference.py:87 | A return type `P` + `typing.` + `X` is shown as `P` followed by `X` with its own `typing.` qualifiers removed. This holds when `P` holds neither `typing_extensions.` nor `typing.`, `X` holds no `typing_extensions.`, and neither end is a quote. With an empty `P` this is the `typing.X` case. |
| Reference.CleanReturnTypeExtensions | website/documentation/reference.py:87 | A return type `typing_extensions.X` is shown as `X` with its `typing.` qualifiers removed, when `X` holds no `typing_extensions.` and does not end in a quote. |
| Reference.ExtensionsPassAroundTyping | website/documentation/reference.py:87 | The `typing_extensions.` pass finds nothing in `P` + `typing.` + `X` when `P` and `X` hold none: no occurrence can straddle either boundary. |
| Reference.TypingPassAfterPrefix | website/documentation/reference.py:87 | The `typing.` pass over `P` + `typing.` + `X`, when `P` holds no `typing.`, keeps `P`, drops the qualifier and goes on in `X`. |
| Reference.MinIndent | website/documentation/reference.py:106 | There is no minimum iff every line is blank. Otherwise it is at most the leading whitespace of every non-blank line, and equal to that of one of them. |
| Reference.RemoveIndentation | website/documentation/reference.py:100-107 | An empty text gives `""`. A single line gives itself. The function fails (Python's `min()` raising) iff there are at least two lines and all lines after the first are blank. |
| Reference.RemoveIndentationOfIndented | website/documentation/reference.py:100-107 | Indent later lines by `k` spaces (at least one of them at the margin), then de-indent: you get the first line back, followed by the original later lines joined by line breaks. |
| Reference.RemoveIndentationJoinsFirstLine | website/documentation/reference.py:107 | The first line and the rest are concatenated without a line break: `first\n    second` becomes `firstsecond`. |
| Reference.RemoveIndentationRaisesOnBlankTail | website/documentation/reference.py:106 | A summary line followed by one line of spaces only makes the function fail. |
| Reference.RemoveIndentationTolerant | website/documentation/reference.py:106-107 | The corrected version gives the same text wherever the original succeeds. Where the original fails, it removes no indentation: the result is the first line followed directly by the later lines, unchanged and joined by `\n`. |
| PyStr.LeadingSpace | website/documentation/reference.py:106 | `len(line) - len(line.lstrip())` is the length of the longest prefix of whitespace characters. |
| PyStr.SplitLinesJoin | website/documentation/reference.py:101 | Splitting lines that were joined by `\n` gives them back, when none holds a line boundary and the last is not empty. |
| PyStr.StripKeepsMiddle | website/documentation/reference.py:76 | `strip("'")` removes only quotes, from both ends, keeps a contiguous middle, and leaves no quote at either end. |
| PyStr.ReplaceAbsent | website/documentation/reference.py:87 | `replace` leaves a string without an occurrence of the pattern unchanged. |
| PyStr.ReplaceLeading | website/documentation/reference.py:87 | A leading occurrence is replaced and the search resumes right after it. |
| PyStr.ReplaceAt | website/documentation/reference.py:87 | When no occurrence starts inside `a`, `replace` over `a` + pattern + `b` keeps `a`, replaces that occurrence and goes on in `b`. |
| PyStr.StripUnchanged | website/documentation/reference.py:76 | A text that neither starts nor ends with the quote is left unchanged by `strip("'")`. |
| PyStr.Insert | website/documentation/reference.py:27 | Inserting a new name into a strictly sorted list keeps it strictly sorted, adds exactly that name and grows it by one. |
| PyStr.BelowTransitive | website/documentation/reference.py:27 | The string ordering used by `sorted` is transitive. |
| PyStr.BelowTotal | website/documentation/reference.py:27 | Two different strings are ordered one way or the other. |
| ChatMessageElement.PutIfGivenEntries | nicegui/elements/chat_message.py:32-39 | `if value is not None: props[key] = value` stores a given value under its key, keeps the old entry when the value is missing, and touches no other key. |
| ChatMessageElement.ChatPropsEntries | nicegui/elements/chat_message.py:30-40 | After construction, `text` is always present, as `[text]` for a string or the list itself. Each of `name`, `label`, `stamp` and `avatar` holds the given value when given, and is present only if given or already there. `sent` always holds the flag. No key outside these six is added or changed. |
| ChatMessageElement.ChatMessage.constructor | nicegui/elements/chat_message.py:11-40 | The constructor's writes to `props`, one after another, leave exactly `ChatProps` of what the element held before. |
| ChatMessageElement.PlainMessageProps | nicegui/elements/chat_message.py:11-40 | With only a text, on an element holding no props, the props are exactly `text: [text]` and `sent: False`. |

## Left out

- UI output is not modelled: `subheading`, `ui.column`, `ui.markdown` and `ui.html`. `GenerateClassDoc` returns what would be shown (entries and ancestor names) instead of building widgets, and the "if properties / if methods / if ancestors" guards only decide whether a heading is shown.
- `_render_docstring` is not modelled (docutils HTML rendering, the `re.sub` on parameter lists), nor the `__doc__` checks that decide whether it is called. Only the de-indentation it calls first is modelled.
- `nicegui/air.py`, `nice_gui.py` and `website/documentation/sections/text_elements.py` are not part of this model.
- Python reflection is taken as given data: `__mro__`, `__module__`, `__dict__`, `dir()`, `inspect.signature`, `callable`, `inspect.formatannotation` and `repr`. A default value records only whether it is callable and its repr.
- Reading a `BindableProperty` through the class is taken to give `None`, which makes it a non-callable attribute shown as `: BindableProperty`. `nicegui/binding.py` is not part of this model.
- `register_component` and the `Element` base class are not part of this model. What `Element.__init__` leaves in `_props` is a constructor parameter (`baseProps`).
- `ChatMessageElement.ChatMessage.constructor`: a list `text` is stored by value. That the stored list is the caller's own list object (aliasing) is not modelled.
- `PyStr.SplitLines`: line boundaries follow `str.splitlines` (`\n`, `\r`, `\r\n`, `\v`, `\f`, `\x1c`-`\x1e`, `\x85`, `\u2028`, `\u2029`). The lemmas are stated for `\n`-joined lines only.
- `PyStr.Strip`: only the one-character form `strip("'")` is modelled. The whitespace forms `strip()` and `lstrip()` appear only as the blank-line test and `LeadingSpace`.
- `Reference.SortedNames`: `sorted` is modelled by repeated insertion of distinct names, since dictionary keys are distinct. Python's sort algorithm itself is not modelled.
- `Reference.PropertyDescriptionRoundTrip`: stated only for annotation texts that do not end in `)`. An annotation like `Callable[..., None] (settable)` could not be told apart from a flag.
- `Reference.CleanReturnType`: the lemmas cover text with no pattern at all, one leading `typing_extensions.`, and one `typing.` after a prefix that holds neither pattern. Text where `typing_extensions.` occurs later or more than once is not covered by a lemma. Neither is a `typing.` that only forms when the first pass removes `typing_extensions.` (`typtyping_extensions.ing.X`).

## Findings

| source | as written | input that shows it | evidently intended | confidence | as-written member | corrected member |
|---|---|---|---|---|---|---|
| website/documentation/reference.py:106 | `min()` over the indentation of the non-blank lines after the first has no value to pick when all of them are blank, and raises `ValueError` | the docstring `"Summary.\n    "`: a summary line, then the closing quotes indented on a line of their own | no indentation removed (as with `min(..., default=0)`): the first line, followed directly by the later lines unchanged and joined by `\n`, so `"Summary.\n    "` gives `"Summary.    "` | medium (not executed) | Reference.RemoveIndentationRaisesOnBlankTail | Reference.RemoveIndentationTolerant |
