# Dafny model of the IDL transformers

Two scripts of the repository transform Anchor IDL files. This project models both and proves what they promise.

* **`convert.ts`** edits the instruction list of an IDL (it extends `createMarket`, moves it to the front and appends
  two instructions), serializes the tree compactly, replaces `{"defined":"usize"}` and `{"defined":"NodeHandle"}` in
  the *text*, parses the text back and writes a TypeScript module. The main result is that the text replacement is a
  structural substitution on the tree, for every tree.
* **`Spam/convert_int.ts`** prints an IDL as a TypeScript interface. The main results say exactly when a reader recovers
  what was printed, and exactly when a printed type is read as the intended one.

## Layout

| file | contents |
|---|---|
| `JsText.dfy` | JavaScript strings as sequences of UTF-16 code units (lone surrogates included) |
| `Json.dfy` | JSON trees, property lookup and update, collapsing of repeated keys |
| `Stringify.dfy`, `Parse.dfy`, `RoundTrip.dfy` | `JSON.stringify` for any gap (ECMA-262, 2021, section 25.5.2), `JSON.parse` (RFC 8259), and their round trip |
| `Escaping.dfy` | what `JSON.stringify` escapes and how; its compact text is the shortest that reads back |
| `ReplaceText.dfy` | `replaceAll` as loops over match positions (ECMA-262, 2021, section 22.1.3.18) |
| `Substitution.dfy` | the substitution on trees: counting, idempotence, commutation |
| `Rewriting.dfy`, `TypeRewrite.dfy` | text replacement refines tree substitution; the replacement table and its loop; sizes |
| `Layout.dfy`, `Indentation.dfy` | the indented form: what its whitespace does, and exactly where and how much there is |
| `Occurrences.dfy` | every match is one whole subtree outside all string literals |
| `IdlEdit.dfy`, `IdlLaws.dfy`, `EditedIdl.dfy` | the instruction-list edit; order, loss, names, repetition; the edited IDL spelled out |
| `EditAndRewrite.dfy`, `Convert.dfy`, `Closure.dfy` | edit and rewriting in either order; the whole conversion and its repetition; resolution of defined names |
| `GeneratedModule.dfy` | the generated module, read as TypeScript |
| `TsType.dfy`, `TsEmit.dfy` | the type printer and how TypeScript reads its output; the emitter's loops |
| `TsLiteral.dfy`, `TsRecord.dfy` | string literals with escapes and record types of TypeScript: a reader and a printer |
| `TsView.dfy`, `TsBrackets.dfy`, `TsLines.dfy` | the emitted interface as a record type; its brackets; its lines |

## What the proofs found

* The textual rewriting never makes a false match and never misses one, whatever quotes, braces or backslashes the
  strings hold. The parse after the loop cannot fail. On the indented text the same loop would do nothing.
* Editing and rewriting commute with one exception: if the `accounts` of `createMarket` are themselves a rewritten
  reference, the edit throws on the input but not on the rewritten input, where it spreads the string `u64` or `u32`
  (`Convert.RewriteBeforeOrAfterEdit`).
* The edit is not idempotent: applied to its own result it adds the same accounts and instructions again
  (`Convert.IteratedAccumulates`). The script itself reads one file and writes others (`convert.ts:6-7`), so it repeats
  its result unless the input is replaced by it. An input with several `createMarket` instructions loses all but the
  first (`IdlEdit.EditLosesDuplicates`).
* "Every defined name resolves" carries over to the generated IDL with two exceptions, which `Closure.GeneratedIsClosed`
  makes an exact condition: a `usize` or `NodeHandle` that is a `defined` member beside other members is not rewritten,
  and a rewritten reference inside a `defined` member makes `u64` or `u32` a name to resolve. `Closure.LooseUsesEscape`
  shows both on whole IDLs.
* The emitter quotes strings without escaping. Even a reader that knows all escapes recovers the strings exactly when
  none of them holds a single quote, a backslash or a line break, and the name can be declared as an interface
  (`TsView.ReadBackIffClean`); `Spam/openbook_v2_buggy.ts:845` is an output that cannot be read back.
* The IDL name is also written without quotes, so a name with unbalanced brackets unbalances the output (`TsBrackets.BalancedIffName`).
* An array of options is printed as `T | null[]`, which TypeScript reads as `T | (null[])`
  (`TsType.PrintedTypeIsIntended`, `TsType.ArrayOfOptionMisread`). A defined type named like a type of the language,
  such as `string`, is read as that one (`TsType.DefinedBuiltInMisread`).

## Model

| member | source | states |
|---|---|---|
| RoundTrip.ParseSerialized | convert.ts:140-147 | Reading a serialized value, with any whitespace gap and any text behind it, gives that value and stops where its text ends |
| RoundTrip.RoundTripIffDistinct | convert.ts:140-147 | Parsing a serialization gives the tree back exactly when no object repeats a key |
| RoundTrip.ParseRejectsMore | convert.ts:147-147 | A serialized value with anything but whitespace behind it is not parsed |
| RoundTrip.PrettyAndCompactAgree | convert.ts:140-151 | The indented and the compact text of a tree are read as the same tree |
| RoundTrip.StringifyInjective | convert.ts:140-151 | Two trees have the same text only if they are equal, for every gap |
| Escaping.QuotedAsItIs | convert.ts:140-151 | A string is quoted as it is exactly when it holds no quote, backslash, control character or unpaired surrogate |
| Escaping.EscapeConcat | convert.ts:140-151 | Escaping treats the parts of a string separately, unless a surrogate pair is cut |
| Escaping.EscapeIsShortest | convert.ts:140-151 | No literal for a string is shorter: none at all without surrogates, and none in well-formed UTF-16 otherwise |
| Escaping.EscapesAreLowerCase | convert.ts:140-151 | An escape starts with a backslash and has lower-case letters and digits |
| Escaping.ValueIsShortest | convert.ts:140-140 | No well-formed text that reads as a value is shorter than its compact text |
| Json.CollapseIsDistinct | convert.ts:147-147 | What the parse builds never repeats a key |
| Layout.StripPretty | convert.ts:140-151 | Deleting the whitespace outside string literals turns the indented text into the compact text, and leaves the compact text alone |
| Indentation.PrettyIsTheIndentedForm | convert.ts:150-151 | The indented text is the only text that strips to the compact text and has a line break with two spaces for each open bracket behind an opening bracket, behind a comma and in front of a closing bracket (not in empty containers), one space behind a colon, and no other whitespace |
| Layout.PrettyHidesReferences | convert.ts:140-151 | On the indented text of any tree no pattern occurs, so a replacement pass is the identity there |
| ReplaceText.IndexOf | convert.ts:141-143 | The first match at or after a position, or that there is none |
| ReplaceText.MatchPositions | convert.ts:141-143 | Exactly the successive leftmost, non-overlapping matches, and none after the last |
| ReplaceText.ReplaceAll | convert.ts:141-143 | The assembling loop computes the left-to-right replacement of all matches |
| Rewriting.QuoteHasNoOpening | convert.ts:9-12 | No pattern can start inside a string literal, whatever the string holds and whatever may follow a literal |
| Rewriting.FromIsRef | convert.ts:9-12 | A pattern stands at the front of a serialized object only if the object is exactly that reference |
| Rewriting.ReplacedIsSubst | convert.ts:140-143 | One textual pass over the compact text of any tree is one structural substitution, for any name and target |
| Occurrences.SubtreeText | convert.ts:140-140 | At the offset of each subtree stands exactly the compact text of that subtree |
| Occurrences.MatchesAreReferences | convert.ts:140-143 | A pattern matches at a position if and only if a reference subtree starts there |
| Occurrences.MatchesAreOutsideStrings | convert.ts:140-143 | Every match starts outside all string literals |
| Occurrences.PatternsDoNotOverlap | convert.ts:9-12 | In any text, a later match of either pattern starts behind the end of an earlier one |
| Substitution.SubstFixesIffNoRef | convert.ts:141-143 | A pass leaves exactly the trees without its reference unchanged |
| Substitution.CountAfter | convert.ts:141-143 | A pass removes all its references and no others, and makes one new reference, to the name it writes, out of each reference to its reference |
| Substitution.PassesAreSimultaneous | convert.ts:141-143 | Two passes are one simultaneous substitution on every tree exactly when the first does not write the name the second looks for |
| Substitution.PassIsIdempotent | convert.ts:141-143 | A pass is idempotent on every tree exactly when it does not write the name it looks for |
| Substitution.PassesCommute | convert.ts:141-143 | Two different passes commute on every tree exactly when neither writes the name the other looks for and the names differ |
| TypeRewrite.TableSpellsRules | convert.ts:9-12 | The literal table entries are the compact texts of the two references and of the two names |
| TypeRewrite.ReplaceEach | convert.ts:140-143 | The loop over the table applies the replacements in order |
| TypeRewrite.TextPassesAreTreePasses | convert.ts:140-143 | For any table of references and names, the loop over the text is the loop of substitutions over the tree |
| TypeRewrite.TextRewritingIsTreeRewriting | convert.ts:140-143 | With the actual table, the rewritten text is the compact text of the rewritten tree |
| TypeRewrite.RewrittenTextParses | convert.ts:140-147 | The parse of the text that the loop leaves never fails and gives the rewritten tree |
| TypeRewrite.RewrittenIsSimultaneous | convert.ts:9-12 | The two actual passes are one simultaneous substitution and can be swapped |
| TypeRewrite.RewritingIsComplete | convert.ts:140-143 | No reference of either kind is left, and a second rewriting does nothing |
| TypeRewrite.RewrittenSize | convert.ts:140-143 | The text shrinks by 14 for each `usize` reference and 19 for each `NodeHandle` reference of the input tree |
| IdlEdit.EditListOutcome | convert.ts:115-138 | Exactly when the edit is made, when `createMarket` is not found, and (otherwise) when a TypeError ends it |
| EditedIdl.EditIdlOutcome | convert.ts:115-160 | Exactly when the script goes on, when it says that `createMarket` is missing, and (without an instruction array always) when a TypeError ends it |
| EditedIdl.EditedMembers | convert.ts:130-138 | The edited IDL has the members of the input in the same places, all unchanged but for the value of `instructions` |
| EditedIdl.EditedItems | convert.ts:115-138 | The edited list: the first `createMarket`, unchanged but for two accounts at the end; the others in order; and two instructions, with the compact texts of all that is inserted |
| EditedIdl.AccountTexts | convert.ts:14-24 | The compact texts of the inserted accounts, name and flags spelled out |
| EditedIdl.InstructionTexts | convert.ts:26-110 | The compact texts of the two inserted instructions, with docs, accounts and arguments |
| IdlEdit.EditTakesFirst | convert.ts:115-138 | Unique or not, the first `createMarket` is extended and moved to the front, all before it stay, and those behind it that have another name stay in order |
| IdlEdit.WithoutConcat | convert.ts:121-123 | The filter treats the parts of a list separately, so it keeps the relative order |
| IdlEdit.CodePointsJoin | convert.ts:127-127 | Spreading a string yields its code points: joined they are the string, and each is a surrogate pair or one unit |
| Json.LookupPut | convert.ts:125-133 | Overriding a property in a spread sets that property and leaves every other one as it was |
| IdlEdit.EditKeepsTheOthers | convert.ts:115-138 | With one `createMarket`: it comes first with two more accounts, then all others unchanged and in order, then the two consume instructions |
| IdlEdit.EditLosesDuplicates | convert.ts:115-138 | The list grows by two exactly when `createMarket` was unique; otherwise the surplus ones are lost |
| IdlLaws.EditedNamesDistinct | convert.ts:121-138 | Instruction names of the result are unique exactly when those of the input are and it had neither consume instruction |
| IdlLaws.ExtendedAccountNamesDistinct | convert.ts:14-24 | Account names stay unique exactly when the input had neither `eventAuthority` nor `program` |
| IdlLaws.EditRepeated | convert.ts:115-138 | n edits give the original accounts with n copies of the two inserted ones and the other instructions with n copies of the two inserted ones |
| EditAndRewrite.EditIdlSubst | convert.ts:115-143 | A pass before the edit equals the pass after it exactly when the spread accounts are not the reference the pass rewrites |
| Convert.EditKeepsDistinctKeys | convert.ts:14-138 | The edited tree repeats no object key if the input does not |
| Convert.Convert | convert.ts:113-157 | Both files are written exactly when the edit succeeds, with the compact and the indented text of the edited and rewritten tree |
| Convert.FileContentHoldsTree | convert.ts:149-152 | The generated module holds the tree twice, each time as a text that reads back to it |
| Convert.FileContentInjective | convert.ts:149-152 | Different trees generate different modules |
| GeneratedModule.ModuleDeclaresTree | convert.ts:149-152 | Read as TypeScript, the module declares the interface `OpenbookV2` as the tree and the constant `Idl` of that type with the tree as its value |
| Convert.RewriteBeforeOrAfterEdit | convert.ts:115-147 | Rewriting before the edit generates the same tree exactly when the accounts of `createMarket` are not a rewritten reference |
| Convert.IteratedRewritesOnce | convert.ts:113-147 | Converting a result again, any number of times, rewrites as one rewriting at the end does |
| Convert.IteratedAccumulates | convert.ts:113-147 | Closed form of the tree after n conversions, each of the result before, of an IDL with one `createMarket` |
| Closure.UsesAfterPass | convert.ts:141-143 | What any tree refers to after one pass, for all shapes of `defined` members |
| Closure.RefersAfterRewriting | convert.ts:9-12 | The rewriting removes `usize` and `NodeHandle` from the names any tree refers to, except beside other members, and adds `u64` and `u32` exactly for references inside `defined` members |
| Closure.GeneratedIsClosed | convert.ts:113-147 | Type names are kept; and every name referred to resolves afterwards exactly if all but the two rewritten names, and those two or their targets where they escape the rewriting, resolve before |
| Closure.LooseUsesEscape | convert.ts:113-147 | Two whole IDLs that refer to nothing but `usize` and whose generated IDL still has a dangling name |
| TsType.PrintedNames | Spam/convert_int.ts:4-12 | What is printed for a type that is a string, with the names spelled out |
| TsType.PrintedObjects | Spam/convert_int.ts:13-22 | What is printed for an array, an option, a defined type and anything else, spelled out |
| TsType.ReadPrint | Spam/convert_int.ts:3-22 | What a reader in which `[]` binds tighter than a bar gets from a printed type, types of the language and declared types told apart |
| TsType.PrintedTypeIsIntended | Spam/convert_int.ts:3-22 | The printed type is read as the intended one exactly when the defined name in it, if any, is an identifier that is no word of the language, and no option lies beneath an array |
| TsType.ArrayOfOptionMisread | Spam/convert_int.ts:14-18 | An array of options is read as a union with an array of null |
| TsType.DefinedBuiltInMisread | Spam/convert_int.ts:18-20 | A defined type with the name of a type of the language is read as that type; `string` prints as the basic type does |
| TsType.PrintedTypeClean | Spam/convert_int.ts:3-22 | A printed type can be quoted as it is exactly when the defined name in it can |
| TsEmit.AppendAccounts | Spam/convert_int.ts:41-53 | The account loop appends the text of each account in order |
| TsEmit.AppendArgs | Spam/convert_int.ts:58-63 | The argument loop appends the text of each argument in order |
| TsEmit.AppendInstr | Spam/convert_int.ts:35-67 | One turn of the outer loop appends the text of one instruction |
| TsEmit.ConvertIdlToTs | Spam/convert_int.ts:24-73 | The nested accumulating loops compute the concatenation; the output is empty exactly without an instruction array |
| TsView.EmitIsPrinted | Spam/convert_int.ts:30-72 | The concatenation is what a printer of record types, two spaces for each level, prints for the properties of the IDL, named as in the source |
| TsLiteral.QuotedReadsBack | Spam/convert_int.ts:33-61 | A string between single quotes is read back by a reader of TypeScript literals, escapes included, exactly when it holds no quote, backslash or line break, whatever follows it |
| TsRecord.InterfaceReadsBack | Spam/convert_int.ts:30-72 | Whatever properties are printed, a reader of record types recovers the interface exactly when its name can be declared and every string is clean |
| TsView.ReadBackIffClean | Spam/convert_int.ts:30-72 | A reader that knows the grammar of TypeScript and no constant of the emitter gets every field of the IDL as the property of its name, exactly when the name can be declared as an interface and no name, version, doc or defined name holds a quote, backslash or line break |
| TsView.ViewDeterminesEmit | Spam/convert_int.ts:30-72 | IDLs that differ only in missing or empty lists, absent or false `isOptional`, or types that print the same have the same output |
| TsView.EmitDeterminesView | Spam/convert_int.ts:30-72 | On clean IDLs nothing else is conflated |
| TsView.QuotesCollide | Spam/convert_int.ts:38-38 | For all strings, one instruction doc holding `', '` and the two docs around it give the same output |
| TsView.AccountQuotesCollide | Spam/convert_int.ts:46-48 | The same for the docs of an account |
| TsBrackets.BalancedIffName | Spam/convert_int.ts:30-72 | Where no string holds a quote, backslash or line break, the brackets outside literals are balanced exactly when those of the name are |
| TsBrackets.BraceNameUnbalances | Spam/convert_int.ts:30-30 | The name `{` unbalances the output of every IDL with otherwise clean strings |
| TsLines.EmittedLines | Spam/convert_int.ts:30-72 | The exact number of lines: 6, 8 an instruction, 5 to 7 an account, 4 an argument, and the line breaks inside strings |

## Left out

- File access, dynamic import, console output, paths and error callbacks of both scripts: input and output only. A TypeError in `convert.ts` is the outcome `Thrown`.
- Numbers as doubles: a tree keeps the RFC 8259 numeral of a number, so rounding and the choice of its shortest form are not modelled.
- Values that JSON text cannot produce (`undefined` members, `toJSON`, accessors), the reordering of integer-like keys, `__proto__`, and the `default` member of an imported module namespace.
- Replacement texts with `$` substitution patterns and empty search texts: the table of `convert.ts` has neither.
- The emitter's input is a typed view of the IDL. Names, docs, flags and `defined` of other JSON types, which a template would coerce to text, are not modelled.
- TsType.PrintedTypeIsIntended: identifiers are those of ASCII letters, digits, `_` and `$`, because the Unicode classes of other identifiers are not modelled; and the reader knows words, `[]` and bars only, because the printer writes nothing else.
- TsView.ReadBackIffClean: the reader knows words, single-quoted literals, tuples and records, because the emitter writes nothing else; its identifiers are those of ASCII letters, digits, `_` and `$`.
- EditedIdl.InstructionTexts: the docs of the two instructions appear as the literals of their lines, each quoted as `Escaping.QuotedAsItIs` says.
- TsBrackets.BalancedIffName: single-quoted literals are the only text that the scanner skips, because the emitter writes no other literals and no comments.
- TsEmit.ConvertIdlToTs: the two inner loops are methods of their own, called where the source nests them.
- The on-chain program, the network clients and the generated data files.
