# Base64loop macro, modelled in Dafny

The Base64loop macro is a CloudFormation template macro. It expands resources
that carry a directive key, using an instance mapping. The mapping is stored
base64-encoded in the `Default` of a template parameter.

- **`Base64loop` (fan-out).** The resource is emitted once per instance key,
  under that key. Every string field is rewritten by the token substituter
  (`walk_resource`). The substituter finds the leftmost
  `(?i)!Base64loop (\w+)` token. It looks the captured key up in the
  instance's data. A string value replaces every occurrence of the token text,
  and the field is scanned again. An integer, boolean or list value replaces
  the whole field.
- **`Base64loopArn` and `Base64loopRef` (fan-in).** One resource is emitted
  under its own name. Every mapping value that is exactly `"!Base64loopArn"`
  or `"!Base64loopRef"` becomes a list of `{"Fn::GetAtt": "<n>.Arn"}` or
  `{"Ref": "<n>"}` objects, one per instance key, in order (`list_resource`).
  The rewrite does not depend on which of the two directives was given. Both
  sentinels are expanded in either mode.
- **Orchestration (`handle_transform`).** The orchestrator:
  - copies `Parameters` and writes the runtime overrides into their `Default`
    fields (a list or string `Parameters` is iterated too, and is left as it
    is unless an element is a list or mapping, or is overridden, which raises
    TypeError);
  - classifies every resource, testing `Base64loopArn`, then `Base64loopRef`,
    then `Base64loop`;
  - deletes the chosen key;
  - decodes the named parameter's `Default`;
  - rebuilds `Resources`.

The model is in five modules:

| file | module | models |
|---|---|---|
| `values.dfy` | `Values` | The document tree (`Value`, with mappings as ordered `Entry` sequences), Python dict assignment (`Put`), lookup and `del` (`Remove`). Also the Python exceptions the code can raise (`Error`) and `Result`. |
| `token.dfy` | `Token` | The token regular expression (`Search`, leftmost match, greedy `\w+`, case-insensitive prefix) and `str.replace` (`ReplaceAll`). |
| `walk.dfy` | `Walker` | `walk_resource`: specification functions `Resolve`, `Walk` and `WalkEntries`. The methods `ResolveField`, `WalkResource` and `WalkList` are the loops, proved equal to the functions. |
| `listref.dfy` | `ListRef` | `list_resource`: specification functions `ListValue`, `ListField` and `References`. The methods `ListResource`, `ListList` and `BuildRefList` are proved equal to them. |
| `transform.dfy` | `Transform` | `handle_transform`: the functions `Classify`, `Overridden`, `Instances`, `ExpandOne`, `Expand` and `Transform`. `Transform.Template` is a class holding the template, and its `HandleTransform` method replaces `Resources`. Helper methods implement the override, resource, fan-out and name loops. |

Each Python function is written as a specification function. The same steps
are also written as methods, following the original loops (`for`, `while`,
`append`, dict assignment), and each method's postcondition is that it
computes the function. The properties are lemmas about the functions.

Three behaviours of the code are modelled as written, even though a plain
reading of the macro's purpose suggests otherwise:

- **List-valued fields are dropped by `walk_resource`.** Its list branch
  (base64loop.py:21-24) builds the walked list but never stores it.
- **A missing token key reuses the previous `replace_value`**, whether it came
  from an earlier token of the same field or from an earlier field of the same
  `walk_resource` call. With no such value the result is
  `UnboundLocalError` (base64loop.py:29-33). The model threads this value as
  loop state (`Walked.last`, `Resolved.last`).
- **Strings inside lists are never scanned or expanded.** `walk_resource`
  returns a string item unchanged when it does not start with `!`, and raises
  AttributeError on one that does. `list_resource` returns a string item
  unchanged, even a sentinel (base64loop.py:14-15, 67-68).

## Model

| member | source | states |
|---|---|---|
| Values.Keys | base64loop.py:17 | The keys of a mapping, in iteration order, one per entry. |
| Values.Lookup | base64loop.py:30 | `d[k]` is absent exactly when k is not a key; otherwise it is the value of an entry with key k. |
| Values.Put | base64loop.py:124 | Dict assignment: a new key is appended at the end; an existing key keeps its place, so the key order is unchanged; afterwards the key maps to the assigned value. |
| Values.PutOther | base64loop.py:124 | Assigning one key leaves what every other key maps to unchanged. |
| Values.PutFrame | base64loop.py:131 | Reassigning a key that is present keeps every key in place and every other key's value. |
| Values.PutSame | base64loop.py:131 | Proof helper for TransformIdentity: assigning a key the value it already has (distinct keys) leaves the mapping equal to what it was. |
| Values.Remove | base64loop.py:94 | `del d[k]`: k is no longer a key, every other key keeps its value, and a missing k changes nothing (the order of what remains is RemoveAt). |
| Values.RemoveAt | base64loop.py:94 | With distinct keys, deleting entry i's key takes out exactly entry i: the remaining entries keep their order. |
| Values.RemoveDistinct | base64loop.py:94 | Deleting a key keeps the remaining keys distinct. |
| Values.LookupDistinct | base64loop.py:17 | With distinct keys, looking up the key of entry i yields entry i's value. |
| Token.WordEnd | base64loop.py:9 | The end of the greedy `\w+` run: every character up to it is a word character and the next one is not. |
| Token.SearchFrom | base64loop.py:26 | The search from position i. Its only contract of its own is that a match is longer than the literal prefix; its meaning is stated by SearchFromSpec. |
| Token.Search | base64loop.py:26 | `BASE64LOOP_RE.search` (also at base64loop.py:38). Its only contract of its own is that a match is longer than the literal prefix; its meaning (the leftmost match, or none when no position starts one) is stated by SearchSpec and MatchUnique. |
| Token.SearchSpec | base64loop.py:9 | `re.search`: a match is a real match of the pattern (case-insensitive prefix, at least one word character, maximal run) with no match starting further left; no match means no position in the string starts one. |
| Token.SearchFromSpec | base64loop.py:9 | The same leftmost-match property for a search starting at any position i. |
| Token.MatchUnique | base64loop.py:9 | At a given start position the pattern has at most one match (the greedy run decides the end). |
| Token.SearchToken | base64loop.py:9 | A string with no `!` before a prefix (in any letter case) followed by a word run and a non-word character matches there, with exactly that text and key. |
| Token.SearchSkip | base64loop.py:26 | Characters other than `!` cannot start a match, so the search skips them. |
| Token.NoBangNoMatch | base64loop.py:26 | A string without `!` has no match. |
| Token.ReplaceAll | base64loop.py:37 | `str.replace`, left to right, without overlaps. No contract of its own; it is characterised by ReplaceAbsent, ReplaceSkip, ReplaceFront, ReplaceSingle and ReplaceBangs. |
| Token.ReplaceAbsent | base64loop.py:37 | `str.replace` of a pattern that does not occur returns the string unchanged. |
| Token.ReplaceSkip | base64loop.py:37 | A leading part that cannot start the pattern is copied unchanged. |
| Token.ReplaceFront | base64loop.py:37 | An occurrence at the front is replaced and the scan continues after it (occurrences do not overlap). |
| Token.ReplaceSingle | base64loop.py:37 | With the pattern's first character nowhere else, exactly the one occurrence is replaced. |
| Token.ReplaceBangs | base64loop.py:37 | Replacing a pattern by text with fewer `!` never adds `!`, and removes at least one when the pattern occurs. |
| Token.BangsAppend | base64loop.py:37 | Proof helper for ReplaceBangs: the count of `!` is additive over concatenation. |
| Token.MatchText | base64loop.py:37 | The matched text `match.group(0)` occurs at the match start, is non-empty and contains a `!`. |
| Walker.LookupReplacement | base64loop.py:29-32 | `map_data[key]` on a mapping yields the key's value; a missing key keeps the previous `replace_value` (None when unbound); non-mapping data raises. |
| Walker.Resolve | base64loop.py:26-38 | A field with no token is returned as it is; a field that is no longer a string was replaced as a whole by an int, bool or list, which is also the last `replace_value`. |
| Walker.WalkEntry | base64loop.py:18-41 | One field of walk_resource. No contract of its own; WalkEntryShape states what it appends. |
| Walker.WalkEntries | base64loop.py:17-41 | The field loop from a given point, threading `replace_value`. No contract of its own; WalkEntriesShape and WalkEntriesRejects state its meaning. |
| Walker.Walk | base64loop.py:11-42 | walk_resource. No contract of its own; WalkNonMapping, WalkShape and WalkRejectsListItem state its meaning, and WalkResource computes it. |
| Walker.ResolveField | base64loop.py:26-39 | The `while match` loop computes Resolve: the new field and the `replace_value` it leaves behind. |
| Walker.WalkResource | base64loop.py:11-42 | walk_resource computes Walk, entry by entry, threading `replace_value` across the fields. |
| Walker.WalkList | base64loop.py:22-24 | The list branch walks every item in order (WalkItems), raising at the first item that raises. |
| Walker.WalkItems | base64loop.py:22-24 | The walked list has one item per input item. |
| Walker.ResolveSubstitutes | base64loop.py:36-38 | A token whose key maps to a string t: every occurrence of the token text is replaced by t and the field is scanned again. |
| Walker.ResolveWholeField | base64loop.py:33-35 | A token whose key maps to an int, bool or list: that value becomes the whole field and scanning stops. |
| Walker.ResolveMissingKey | base64loop.py:29-37 | A missing key reuses the previous `replace_value`, or raises UnboundLocalError when there is none. |
| Walker.ResolveLeavesNoToken | base64loop.py:27-38 | When the loop ends with a string, no token remains in it. |
| Walker.SubstitutionRemovesBang | base64loop.py:37 | A token-bearing field holds a `!`, and substituting a `!`-free string removes at least one. |
| Walker.ResolveWithinFuel | base64loop.py:27-38 | When every string in the instance data is free of `!`, the loop ends within as many iterations as the field has `!` characters. |
| Walker.ExampleSubstitution | base64loop.py:26-39 | `"prefix-!Base64loop Foo-suffix"` with `{Foo: "X"}` becomes `"prefix-X-suffix"`. |
| Walker.ExampleSearch | base64loop.py:9 | The token in `"prefix-!Base64loop Foo-suffix"` is found at 7..22 with key `Foo`. |
| Walker.ExampleNoToken | base64loop.py:26 | `"prefix-X-suffix"` holds no token. |
| Walker.ReplaceExample | base64loop.py:37 | `str.replace` of the token text in the example yields `"prefix-X-suffix"`. |
| Walker.ResolveOnce | base64loop.py:36-38 | One substitution that leaves no token ends the loop with that string. |
| Walker.ExampleWholeField | base64loop.py:33-35 | `"!Base64loop Count"` with `{Count: 3}` becomes the integer 3. |
| Walker.ExampleCaseRules | base64loop.py:9 | The prefix matches in any letter case, but the key lookup is case-sensitive. |
| Walker.WalkNonMapping | base64loop.py:14-17 | A string not starting with `!` is returned as it is; any other non-mapping raises AttributeError. |
| Walker.WalkShape | base64loop.py:17-41 | The result keeps every key whose value is not a list, in the original order, and drops list-valued keys. Mappings are walked, strings hold no token or were replaced whole, and other scalars are copied. |
| Walker.WalkEntriesShape | base64loop.py:17-41 | The same, for the loop from any point with any fields already written. |
| Walker.WalkEntryShape | base64loop.py:18-41 | One iteration appends one entry for a non-list key and nothing for a list key. |
| Walker.WalkItemsRejects | base64loop.py:23-24 | A list item that is neither a mapping nor a bare string makes the list branch raise. |
| Walker.WalkRejectsListItem | base64loop.py:21-24 | Such an item makes walk_resource raise, even though the list is then dropped. |
| Walker.WalkEntriesRejects | base64loop.py:17-24 | Such an item raises from any point of the field loop. |
| ListRef.RefEntry | base64loop.py:60 | One reference object: `{"Fn::GetAtt": n + ".Arn"}` or `{"Ref": n}`. |
| ListRef.References | base64loop.py:59-64 | One reference per name, in the names' order. |
| ListRef.ListField | base64loop.py:49-65 | The new value of one field. No contract of its own; SentinelExpanded, ListItemsPointwise and ListShape state its meaning. |
| ListRef.ListEntries | base64loop.py:48-66 | The field loop. No contract of its own; ListEntriesAppend, ListedPointwise and ListEntriesRejects state its meaning. |
| ListRef.ListValue | base64loop.py:44-69 | list_resource. No contract of its own; ListNonMapping, ListShape, SentinelExpanded and ListRejectsListItem state its meaning, and ListResource computes it. |
| ListRef.BuildRefList | base64loop.py:57-65 | The append loops build exactly References. |
| ListRef.ListResource | base64loop.py:44-69 | list_resource computes ListValue, field by field. |
| ListRef.ListList | base64loop.py:53-55 | The list branch maps list_resource over the items. |
| ListRef.ListItems | base64loop.py:53-55 | The new list has one item per input item. |
| ListRef.ListItemsPointwise | base64loop.py:53-55 | The list branch succeeds exactly when every item does, and item i becomes list_resource of item i. |
| ListRef.ListNonMapping | base64loop.py:47 | A string argument, even a sentinel, is returned as it is; any other non-mapping raises AttributeError. |
| ListRef.ListedEntries | base64loop.py:48-66 | The fields with their new values: one per input field. |
| ListRef.ListEntriesAppend | base64loop.py:48-66 | With distinct keys, the loop appends each field with its new value after what it had written. |
| ListRef.ListedPointwise | base64loop.py:48-66 | Field i of the result has field i's key and its new value. |
| ListRef.ListShape | base64loop.py:48-66 | list_resource on a mapping keeps every key in place and gives each its new value. |
| ListRef.SentinelExpanded | base64loop.py:56-65 | A field holding exactly a sentinel becomes the reference list for the names, in order (empty for no names). Other string and scalar fields keep their value. |
| ListRef.ListEntriesRejects | base64loop.py:48-66 | A field whose new value raises makes list_resource raise. |
| ListRef.ListRejectsListItem | base64loop.py:54-55 | A list item that is neither a mapping nor a string makes list_resource raise. |
| Transform.Classify | base64loop.py:91-112 | Only non-mappings can raise, always TypeError; only mappings carry a directive. |
| Transform.ClassifyMapping | base64loop.py:91-112 | A mapping is always classified, and passes through exactly when it has none of the three directive keys. |
| Transform.ClassifyChoice | base64loop.py:91-108 | The chosen directive is the first key present in the order Arn, Ref, Loop. Its value names the parameter. Only that key is deleted; every other key keeps its value. |
| Transform.StrippedOrder | base64loop.py:94-106 | With distinct keys, the resource left after the directive key is deleted is the resource with exactly the directive's entry taken out, every other field in its order. |
| Transform.ClassifyString | base64loop.py:91-106 | A string resource raises TypeError exactly when `"Base64loop"` occurs in it; otherwise it passes through. |
| Transform.Override | base64loop.py:86-87 | One parameter under the override loop. No contract of its own; OverrideEntry and OverriddenSpec state its meaning. |
| Transform.OccursPrefix | base64loop.py:103 | Proof helper for ClassifyString: a string containing x contains every prefix of x. |
| Transform.Overridden | base64loop.py:84-87 | On a mapping Parameters, the copy has one descriptor per parameter, and the loop can only raise TypeError. |
| Transform.OverrideParameters | base64loop.py:84-87 | The override loop on a Parameters of any shape. It raises only TypeError, and a mapping stays a mapping with one descriptor per parameter. A list or a string comes back unchanged when the loop succeeds, and any other value raises. |
| Transform.OverrideLoop | base64loop.py:84-87 | The `for param in usedparams` loop, for every shape of Parameters, computes OverrideParameters. |
| Transform.OverriddenSpec | base64loop.py:84-87 | The override loop raises (TypeError) exactly when an overridden descriptor is not a mapping. Otherwise every parameter keeps its name and place and is overridden on its own. |
| Transform.OverrideEntry | base64loop.py:86-87 | A parameter with no override is untouched. An overridden one has `Default` set to the runtime value, and every other descriptor field is kept. |
| Transform.OverriddenLookup | base64loop.py:84-87 | The descriptor the resource loop sees under a name is the template's descriptor under that name, overridden. |
| Transform.OverrideDecoded | base64loop.py:84-114 | A directive decodes the runtime value when its parameter is overridden, and the template's `Default` when it is not. An undeclared parameter raises `KeyError` with its name. |
| Transform.ApplyOverrides | base64loop.py:84-87 | The override loop, writing each descriptor in place, computes Overridden. |
| Transform.Parameter | base64loop.py:114 | `usedparams[name]`. On a mapping it succeeds only for a string naming a parameter, with its descriptor, and a string naming none raises KeyError(name). On a list it succeeds exactly when Index does and yields the item at that index; on a string, the one-character string at that index. A string subscript of a list or a string raises TypeError. |
| Transform.Index | base64loop.py:114 | A list or string subscript of length n. It succeeds for an int exactly when the int is from -n to n - 1, at the int itself or, for a negative int, the int plus n. A bool indexes 0 or 1 (IndexError when that is out of range). Other ints raise IndexError and every other value TypeError. |
| Transform.ParameterNamed | base64loop.py:114 | On a mapping Parameters, a string name yields that parameter's descriptor, or raises KeyError(name). |
| Transform.Instances | base64loop.py:114 | The named descriptor's `Default`, decoded. No contract of its own; Parameter, DefaultOf, Decoded and OverrideDecoded state its meaning. |
| Transform.DefaultOf | base64loop.py:114 | `['Default']` succeeds only on a mapping, with its `Default`. |
| Transform.Decoded | base64loop.py:114-119 | The decoded value is usable exactly when decoding succeeded and produced a mapping, whose entries are the instances. |
| Transform.Section | base64loop.py:84-90 | `template[k]` succeeds exactly when k is a section of the template, and otherwise raises KeyError(k). |
| Transform.WalkedInstances | base64loop.py:121-124 | One emitted entry per instance. |
| Transform.EmitInstances | base64loop.py:120-124 | The fan-out loop. No contract of its own; EmitInstancesAppend, WalkedPointwise and EmitKeys state its meaning, and EmitLoop computes it. |
| Transform.EmitLoop | base64loop.py:120-124 | The fan-out loop computes EmitInstances. |
| Transform.EmitInstancesAppend | base64loop.py:120-124 | With new, distinct instance keys, the fan-out appends one entry per instance after what was emitted before. |
| Transform.WalkedPointwise | base64loop.py:121-124 | The fan-out succeeds exactly when every instance's walk does. Entry i is named by instance key i and holds the resource walked with instance i's data. |
| Transform.EmitKeys | base64loop.py:120-124 | The fan-out writes only instance keys. |
| Transform.InstanceNames | base64loop.py:126-128 | The name list is the instance keys in order. |
| Transform.ExpandOne | base64loop.py:91-130 | One iteration of the resource loop. No contract of its own; ExpandLoop, ExpandList, MissingParameter and ExpandPlain state its meaning. |
| Transform.Expand | base64loop.py:90-130 | The resource loop. No contract of its own; ExpandPlain and ExpandRejects state its meaning, and ExpandResources computes it. |
| Transform.ExpandLoop | base64loop.py:119-124 | With instance keys distinct and new to what was already emitted, a Loop directive emits, after the earlier resources, one resource per instance in decoded order; otherwise collisions follow Put. The resource's own name is not emitted unless it is an instance key or was emitted earlier. |
| Transform.ExpandList | base64loop.py:125-130 | An Arn/Ref directive emits one resource under its own name: list_resource of the stripped resource with the instance keys as names. |
| Transform.StrippedShape | base64loop.py:125-130 | In Arn/Ref mode, every field left after the directive key is deleted keeps its place and takes its new value. |
| Transform.MissingParameter | base64loop.py:113-118 | A directive naming a parameter that a mapping Parameters does not declare raises `KeyError` with that name, whatever was emitted before. With a list or a string Parameters any string-named directive raises TypeError. |
| Transform.ExpandRejects | base64loop.py:90-130 | A resource that raises makes the whole resource loop raise. |
| Transform.ExpandPlain | base64loop.py:109-112 | Resources without a directive pass through under the same name and in the same place. |
| Transform.ExpandResources | base64loop.py:89-130 | The resource loop computes Expand. |
| Transform.Transform | base64loop.py:81-132 | handle_transform. No contract of its own; TransformFrame, TransformIdentity and TransformMissingParameter state its meaning, and Template.HandleTransform computes it. |
| Transform.Template.HandleTransform | base64loop.py:81-132 | handle_transform computes Transform. On success the template holds the result; on failure `Resources` is never reassigned. |
| Transform.TransformFrame | base64loop.py:131 | Only `Resources` is replaced. Every other section keeps its key, place and value, including `Parameters`, since the overrides go to a copy. |
| Transform.TransformIdentity | base64loop.py:84-131 | A template with distinct keys comes back unchanged when its `Parameters`, of any shape, accept the overrides and its `Resources` (distinct names) hold no directive. |
| Transform.TransformMissingParameter | base64loop.py:113-118 | A directive naming a parameter that a mapping Parameters does not declare makes the whole transform fail, so no resources are emitted. So does any string-named directive when Parameters is not a mapping. |

## Left out

- `decode_param` (base64loop.py:71-79) is not modelled. Base64, UTF-8 and JSON decoding are library calls. The model takes them as a parameter `decode: Value -> Option<Value>`, where `None` stands for any exception it raises (`DecodeError`).
- `handler` and the command-line entry point (base64loop.py:134-176) are not modelled. They are Lambda envelope and file I/O plumbing.
- The `print` and `traceback` diagnostics are left out. They are output only.
- `\w` and `(?i)` are modelled over ASCII. Python's Unicode word characters and Unicode case folding are not.
- Walker.Resolve: the `while` loop is given fuel, and running out is the `OutOfFuel` error. It stands for a loop that may not terminate, because a replacement can reintroduce a token. Walker.ResolveWithinFuel bounds the fuel needed when replacements hold no `!`.
- Floats are kept as opaque scalars (`Opaque`), so no floating-point arithmetic or formatting is modelled.
- Template.HandleTransform: on failure the model leaves the whole template as it was. Python has already deleted the directive keys of the resources it classified, in the caller's template (base64loop.py:94, 100, 106). In-place aliasing of resource objects between the old and the new `Resources` is not modelled either; every value is a copy.
- The template itself is a mapping in the model, as the Lambda envelope delivers it. The fan-out reads each instance's data from its entry rather than looking its key up again; for a dict, with distinct keys, the two agree.
- Python dicts cannot hold a key twice. The model's mappings can, so lemmas that depend on it require `Distinct` keys.
