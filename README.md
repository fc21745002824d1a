# Parasol front end, modelled in Dafny

Parasol is a small shading language. This project models the front end of its
C++ compiler and of its two Python prototypes:

- **Lexer.** A cursor over the source text tries a one-character symbol, then
  a number literal, then an identifier. Identifiers are interned in a string
  table. A reverse lookup spells a token for error messages.
- **C++ syntax tree.** Each node struct has a four-character type tag. Its
  constructors point the children they are given back at the new node. The
  older header does the same wiring through `make_node` and `initChildren`,
  after the object is built.
- **Visitors.**
  - `applyVisitor` enumerates one level of children.
  - `applyTypedVisitor` walks the tree depth first, calling only nodes with a
    branch.
  - The ID visitor numbers every node it reaches.
  - The DOT printer escapes labels and prints tags.
  - The renderers print type names, declarations, includes and parameter lists.
- **Linking.** Each module's pipelines and functions are registered by name.
  A visitor then gives every include the first module's pipeline of that name
  and attaches it to the pipeline entered last.
- **Python front end.** A parse tree is converted into node objects. Each
  object takes an id from a module-wide counter. Binary operations have a
  result-type table. Lexical scopes are looked up innermost first.

Where the source changes state, the model does too, as a class with
`modifies` clauses:

- the lexer and its string table;
- the visitors' counters and link state;
- the link unit's module list;
- the parent pointers the constructors write;
- the Python node objects and counters;
- the scopes.

Each such method is proved against a pure function that states what it
computes. A finished C++ tree is an immutable value (`Ast.Node`), and the
walks, numbering, rendering and linking are stated over it. A visited node is
named by the path of child positions that leads to it from the root.

## Model

| member | source | states |
|---|---|---|
| `Lexing.Lexer.constructor` | prslc/Lexer.h:147-151 | A new lexer starts at the first character, on line 0, with an empty current string, sharing the table it is given. |
| `Lexing.Lexer.SkipWhitespace` | prslc/Lexer.h:50-63 | Looks at one character only. It skips that character when it is blank and counts it when it is a newline, so the cursor moves at most one place. |
| `Lexing.Lexer.NextSymbol` | prslc/Lexer.h:65-75 | Succeeds exactly when the current character is in the symbol table. It then consumes one character and takes the token of the first entry with that character. Otherwise nothing moves and the token is unchanged. |
| `Lexing.Lexer.NextNumber` | prslc/Lexer.h:77-123 | Consumes an optional '-' and then the run of digits and first '.'. The current string is exactly those characters. The outcome is the scan of that text: no token when it is empty, a float when it holds '.', an integer when it reads as a 64-bit decimal, and each error message otherwise. |
| `Lexing.Lexer.TakeLiteral` | prslc/Lexer.h:80-102 | Gathers the literal's characters into the current string, with the leading '-' if there is one. It reports a float exactly when a '.' was taken. |
| `Lexing.Lexer.TakeDigits` | prslc/Lexer.h:89-102 | The loop stops at the end of the run of admissible characters (digits '1'..'8' and the first '.'). The current string is the characters consumed. |
| `Lexing.Lexer.NextID` | prslc/Lexer.h:125-144 | Succeeds exactly when the current character is a letter or '_'. It then consumes the rest of the input and interns the first character repeated (remaining + 1) times. The token carries that string's table index, and the table either already held the string or grows by exactly it. On failure nothing changes. |
| `Lexing.Lexer.Next` | prslc/Lexer.h:154-169 | After the one-character whitespace step, there is no token at the end of the input. Otherwise the result is the symbol, else the number, else the identifier outcome, stamped with the current line. The line grows only by the newline it skipped. The string table is unchanged at the end, for a symbol, for a number and when nothing matches; an identifier leaves it unchanged or adds exactly the interned text at its end. |
| `Lexing.NumberRun` | prslc/Lexer.h:89-102 | The run the number loop takes holds only digits and '.', has at most one '.', and stops at the first character the loop refuses. |
| `Lexing.ShortFloatReads` | prslc/Lexer.h:104-111 | A float literal of at most 38 characters that holds a digit reads as a float token. Its magnitude stays below 10^38, under the 32-bit overflow bound. |
| `Lexing.LongFloatFails` | prslc/Lexer.h:104-111 | A float literal whose magnitude opens with 40 digits fails with "Failed to lex float literal.", because the stream read overflows a 32-bit float. Forty '1's followed by '.' is one such literal. |
| `Lexing.ExtractInt64` | prslc/Lexer.h:113-117 | Yields a value only for the decimal reading of the text, and only within the signed 64-bit range. |
| `Lexing.NumberKind` | prslc/Lexer.h:104-122 | A number token is FLOAT_LIT exactly when its text holds '.', and INT_LIT exactly when it does not. An empty text gives no token. |
| `StringTables.StringTable.constructor` | prslc/Lexer.h:23-31 | A new table is empty and well formed. |
| `StringTables.StringTable.PushString` | prslc/Lexer.cpp:40-52 | A known string returns its recorded index and changes nothing. A new string is appended and recorded at the old size. The table stays duplicate-free. |
| `StringTables.StringTable.GetString` | prslc/Lexer.cpp:55-57 | The string at an index is the string whose recorded index that is. |
| `StringTables.NoDuplicates` | prslc/Lexer.cpp:40-52 | In a well-formed table no string occurs twice, and the map holds exactly the strings of the vector. |
| `StringTables.PushTwice` | prslc/Lexer.cpp:40-52 | Pushing the same string twice returns the same index and stores it at most once. |
| `StringTables.LookupToken` | prslc/Lexer.cpp:59-85 | A symbol token is spelled by its first symbol entry. Else a digraph's first token is spelled by the digraph's first character. Else a keyword token is spelled by its first keyword. |
| `StringTables.SearchSymbols` | prslc/Lexer.cpp:62-67 | Finds a spelling exactly when the token is in the symbol table, and the spelling is its first entry's character. |
| `StringTables.SearchDigraphs` | prslc/Lexer.cpp:69-78 | Finds a spelling exactly when the token is a digraph's first token, spelled by the digraph's first character. |
| `StringTables.SearchKeywords` | prslc/Lexer.cpp:80-84 | A keyword token is spelled by its first keyword entry. |
| `Tokens.SymbolTableInjective` | prslc/Lexer.cpp:9-25 | No two symbol entries share a character or a token, so both lookups are unambiguous. |
| `Tokens.SymbolRoundTrip` | prslc/Lexer.cpp:9-25 | Lexing an entry's character finds that entry, and spelling its token finds it too. |
| `Tokens.DigraphOutsideOtherTables` | prslc/Lexer.cpp:28-37 | '=' is not a symbol, EQUALS and GOESTO are in neither the symbol nor the keyword table, and GOESTO is not a digraph's first token. |
| `Ast.Tag` | prslc/ParasolAST.h:34-46 | Every node's type tag is four characters. |
| `Ast.WithNodeID` | prslc/ParasolAST.h:36 | Setting a node's id changes only its id: the tag and the children stay. |
| `Ast.WithSlotsSlots` | prslc/Visitor.h:14-86 | Replacing a node's children gives exactly the new children, with the id and tag kept. |
| `Ast.NoBranchNoSlots` | prslc/Visitor.h:14-86 | Nodes without a branch, and includes, have no children to visit. |
| `Ast.UnderAppend` | prslc/Visitor.h:88-194 | Putting a child index in front of paths distributes over concatenation of walks. |
| `Ast.Reached` | prslc/Visitor.h:88-194 | The depth-first walk reaches the root first, at the empty path. |
| `Ast.ReachedSlotIs` | prslc/Visitor.h:88-194 | The part of the walk below child `i` is that child's walk under index `i`, and empty for a null child. |
| `Ast.ReachedKidsStep` | prslc/Visitor.h:88-194 | The children are walked in order: the first `k` are the first `k - 1` followed by child `k - 1`. |
| `Ast.ReachedKidsCover` | prslc/Visitor.h:88-194 | Each child's part of the walk is no longer than the walk of all children up to it. |
| `Ast.ChildSmaller` | prslc/Visitor.h:88-194 | A child's walk is strictly shorter than its parent's, so the recursion ends. |
| `Ast.UnderDistinct` | prslc/Visitor.h:88-194 | Distinct paths stay distinct under a child index, and all of them start with it. |
| `Ast.ReachedDistinct` | prslc/Visitor.h:88-194 | No node is reached twice: the paths of a walk are pairwise distinct. |
| `Ast.ReachedKidsDistinct` | prslc/Visitor.h:88-194 | The walk of the first `k` children has distinct paths, each starting below `k`. |
| `Ast.SlotDistinct` | prslc/Visitor.h:88-194 | The walk below one child has distinct paths, all starting with that child's index. |
| `Ast.DistinctAppend` | prslc/Visitor.h:88-194 | Walks of earlier children followed by the walk of the next child keep distinct paths. |
| `Visitors.Present` | prslc/Visitor.h:25 | Skipping null entries keeps exactly the non-null ones. |
| `Visitors.ApplyVisitorSlots` | prslc/Visitor.h:14-86 | A null root calls nothing. A module calls its non-null declarations. Every other node calls its children in field order, nulls included. A node without a branch calls nothing. |
| `Visitors.BranchOnlyAppend` | prslc/Visitor.h:88-194 | Keeping only branch nodes distributes over concatenation. |
| `Visitors.BranchOnlyUnder` | prslc/Visitor.h:88-194 | Keeping only branch nodes commutes with prefixing paths. |
| `Visitors.TypedIsBranchFilter` | prslc/Visitor.h:88-194 | The typed walk calls exactly the nodes of the depth-first walk whose kind has a branch, in walk order. |
| `Visitors.TypedKidsFilter` | prslc/Visitor.h:88-194 | The same holds for the walk of the first `k` children. |
| `Visitors.TypedIncludeDecl` | prslc/Visitor.h:189-193 | An include is called once, and nothing below it. |
| `Visitors.BranchOnlyKeeps` | prslc/Visitor.h:88-194 | The filter keeps a visit exactly when it is in the walk and has a branch, and it keeps paths distinct. |
| `Visitors.TypedDistinct` | prslc/Visitor.h:88-194 | The typed walk calls each node at most once, and only nodes of the full walk that have a branch. |
| `IdVisitors.Renumbered` | legacy/prslc/IDVisitor.cpp:12-18 | Numbering a tree gives the root the starting id and keeps its tag and number of children. |
| `IdVisitors.RenumberedKids` | legacy/prslc/IDVisitor.cpp:12-18 | Numbering the first `k` children gives `k` children. |
| `IdVisitors.RenumberedSlot` | legacy/prslc/IDVisitor.cpp:12-18 | A numbered child is null exactly when the original is. |
| `IdVisitors.RenumberedKidsAt` | legacy/prslc/IDVisitor.cpp:12-18 | Child `j` is numbered from the start plus the number of nodes reached before it. |
| `IdVisitors.RenumberedShape` | legacy/prslc/IDVisitor.cpp:12-18 | The children of a numbered node are numbered from one past the node's own id. |
| `IdVisitors.NumberedAppend` | legacy/prslc/IDVisitor.cpp:12-18 | Consecutive numberings of two walks join into one consecutive numbering. |
| `IdVisitors.RenumberedWalk` | legacy/prslc/IDVisitor.cpp:12-18 | In walk order, the numbered tree's nodes carry consecutive ids from the start, at the same paths and with the same tags as the original. |
| `IdVisitors.RenumberedKidsWalk` | legacy/prslc/IDVisitor.cpp:12-18 | The walk of the first `k` numbered children is numbered consecutively from one past the parent. |
| `IdVisitors.RenumberedLastSlotWalk` | legacy/prslc/IDVisitor.cpp:12-18 | The last of those children is numbered from where the earlier ones stop. |
| `IdVisitors.RenumberedSlotWalk` | legacy/prslc/IDVisitor.cpp:12-18 | A numbered child's walk is numbered consecutively from its own start. |
| `IdVisitors.Cleared` | legacy/prslc/IDVisitor.cpp:12-18 | Erasing ids gives id 0 and keeps the tag and number of children. |
| `IdVisitors.ClearedKids` | legacy/prslc/IDVisitor.cpp:12-18 | Erasing the ids of the first `k` children gives `k` children. |
| `IdVisitors.ClearedSlot` | legacy/prslc/IDVisitor.cpp:12-18 | An erased child is null exactly when the original is. |
| `IdVisitors.WithSlotsThenId` | legacy/prslc/IDVisitor.cpp:15-17 | Setting an id and children twice is the same as setting the last ones once. |
| `IdVisitors.RenumberedOnlyIds` | legacy/prslc/IDVisitor.cpp:12-18 | Numbering changes nothing but ids: with ids erased, the numbered tree equals the original. |
| `IdVisitors.ClearedKidsAfterRenumbering` | legacy/prslc/IDVisitor.cpp:12-18 | The same holds for the first `k` children. |
| `IdVisitors.ClearedSlotAfterRenumbering` | legacy/prslc/IDVisitor.cpp:12-18 | The same holds for one child. |
| `IdVisitors.IDVisitor.constructor` | prslc/IDVisitor.h:12-15 | The counter starts at 1. |
| `IdVisitors.IDVisitor.Visit` | legacy/prslc/IDVisitor.cpp:12-18 | A null node changes nothing. Otherwise the node takes the current id, the counter steps, and its children are visited in turn. The result is the tree numbered from the old counter, which has grown by the number of nodes reached. |
| `IdVisitors.NumberTree` | legacy/prslc/IDVisitor.cpp:12-18 | A fresh visitor numbers the nodes 1, 2, ... in walk order, ends one past the number of nodes, and changes nothing but ids. |
| `Render.TypeIdentToString` | prslc/ParasolAST.h:135-144 | A type name renders starting with its name. |
| `Render.ReadTypeIdent` | prslc/ParasolAST.h:135-144 | A text without '@' reads back as a name of dimension 1. |
| `Render.TypeIdentRoundTrip` | prslc/ParasolAST.h:135-144 | A rendered type name reads back as its name and dimension, with a dimension below 1 read as 1. '@' appears exactly when the dimension is above 1. |
| `Render.Unscoped` | prslc/ParasolAST.h:203-231 | Dropping the scope keeps the name, type and index. |
| `Render.VarDeclScopeWrap` | prslc/ParasolAST.h:203-231 | A scoped declaration renders as the scope, '[', the unscoped rendering and ']'. Without a scope the two renderings agree. |
| `Render.VarDeclColon` | prslc/ParasolAST.h:203-231 | When no part holds ':', the rendering holds ':' exactly when a type or an index is present. |
| `Render.VarDeclBracket` | prslc/ParasolAST.h:203-231 | When no part holds '[', the rendering holds '[' exactly when a scope is present. |
| `Render.VarDeclReadBack` | prslc/ParasolAST.h:203-231 | An unscoped declaration with a type or an index splits at ':' into its name and its type-and-index text. |
| `Render.LegacyVarDeclSame` | legacy/prslc/ParasolAST.h:198-226 | The older renderer, written as the pieces its output stream receives (scope and '[', name, ':' when a type or an index is present, a space and the type, a space and the index, ']'), renders every declaration exactly as the newer one does. |
| `Render.IncludeDeclToString` | prslc/ParasolAST.h:405-413 | An include renders starting with "include ". |
| `Render.IncludeDeclReadBack` | prslc/ParasolAST.h:405-413 | With space-free names, the rendering splits at spaces into "include" and the pipeline name, followed by "as" and the alias when there is one. |
| `Render.FormatParameterList` | prslc/ParasolAST.cpp:9-27 | The loop builds exactly the parameters joined by ", ", and the empty text for a missing or empty list. |
| `Render.JoinLength` | prslc/ParasolAST.cpp:18-23 | A joined text is as long as its parts plus one separator between each pair. |
| `Render.JoinEnds` | prslc/ParasolAST.cpp:18-23 | A joined text starts with its first part and ends with its last. |
| `Render.ParameterListShape` | prslc/ParasolAST.cpp:9-27 | A missing or empty list renders as "" and a single parameter as itself. A longer list starts with the first parameter, ends with the last, and is as long as the parts plus two characters per separator. |
| `Dot.EscapeCharAppend` | prslc/DOTVisitor.cpp:21-30 | Escaping one character distributes over concatenation. |
| `Dot.EscapeCharAbsent` | prslc/DOTVisitor.cpp:21-30 | A text without the character is left as it is. |
| `Dot.Find` | prslc/DOTVisitor.cpp:24 | The search returns the first position at or after the start holding the character, or -1 when there is none. |
| `Dot.EscapeThrough` | prslc/DOTVisitor.cpp:24-28 | Escaping up to and including the next match adds the gap unchanged, then a backslash and the character. |
| `Dot.EscapeRest` | prslc/DOTVisitor.cpp:21-30 | When no match remains, the rest is copied unchanged. |
| `Dot.Sanitize` | prslc/DOTVisitor.cpp:21-30 | The find-and-insert loop puts a backslash before every occurrence of the character and changes nothing else. |
| `Dot.DotSanitize` | prslc/DOTVisitor.cpp:20-35 | The three passes together escape each '<', '>' and '\|' once. |
| `Dot.ThreePassesSanitize` | prslc/DOTVisitor.cpp:32-34 | Escaping '<', then '>', then '\|' equals the one-pass escape of all three. A later pass does not re-escape what an earlier one inserted. |
| `Dot.SanitizedLength` | prslc/DOTVisitor.cpp:20-35 | The label grows by one character per special character. |
| `Dot.SanitizedStart` | prslc/DOTVisitor.cpp:20-35 | A sanitized label never starts with an unescaped special character. |
| `Dot.SanitizeRoundTrip` | prslc/DOTVisitor.cpp:20-35 | Dropping each backslash before a special character gives back the original label. |
| `Dot.MemoryByte` | prslc/DOTVisitor.cpp:201-211 | Each byte of the four-byte tag value is below 256. |
| `Dot.PrintNodeType` | prslc/DOTVisitor.cpp:201-211 | The printed tag is four characters. |
| `Dot.TagBytes` | prslc/DOTVisitor.cpp:201-211 | The bytes of a tag value, least significant first, are the tag's characters from last to first. |
| `Dot.PrintTagLittleEndian` | prslc/DOTVisitor.cpp:201-211 | On a little-endian host, printing the bytes last first gives back the tag's spelling. |
| `Dot.PrintTagBigEndian` | prslc/DOTVisitor.cpp:201-211 | On a big-endian host the printed tag is the spelling reversed. |
| `Dot.PrintNodeTag` | prslc/DOTVisitor.cpp:201-211 | Every node's tag fits in bytes and prints as itself on a little-endian host. |
| `AstObjects.AstNode.IsTypeBound` | prslc/ParasolAST.h:56 | An expression is bound exactly when its type string is not empty. |
| `AstObjects.AstNode.Stored` | legacy/prslc/ParasolAST.h:19-24 | A node made by the older factory stores its arguments and wires nothing yet: no parent, id 0, no type. |
| `AstObjects.AstNode.IntegerLit` | prslc/ParasolAST.h:99-105 | An integer node stores its 64-bit value and has no children. |
| `AstObjects.AstNode.FloatLit` | prslc/ParasolAST.h:107-113 | A float node has no children. |
| `AstObjects.AstNode.IdentLeaf` | prslc/ParasolAST.h:115-123 | An identifier stores its name and has no children. |
| `AstObjects.AstNode.TypeIdentLeaf` | prslc/ParasolAST.h:125-133 | A type name stores its name and 64-bit dimension and has no children. |
| `AstObjects.AstNode.BinaryOp` | prslc/ParasolAST.h:64-71 | Stores the operator and both operands, and points both back at the new node. |
| `AstObjects.AstNode.UnaryOp` | prslc/ParasolAST.h:85-90 | Stores the operator and the operand, and points the operand back. |
| `AstObjects.AstNode.VarDecl` | prslc/ParasolAST.h:153-161 | Stores name, type and index with no scope, and points the parts present back. |
| `AstObjects.AstNode.ScopedVarDecl` | prslc/ParasolAST.h:163-173 | Stores all four parts and points the parts present back. |
| `AstObjects.AstNode.StealVarDecl` | prslc/ParasolAST.h:176-191 | Takes the old declaration's name, type and index and the new scope, wires them to the new node, and leaves the old declaration with four nulls. |
| `AstObjects.AstNode.FunctionCall` | prslc/ParasolAST.h:238-249 | Stores the name and arguments and points all of them back. |
| `AstObjects.AstNode.FunctionDef` | prslc/ParasolAST.h:272-285 | Needs a name and a body, which it dereferences. It stores name, parameters and body and points them back. |
| `AstObjects.AstNode.IntrinsicFunction` | prslc/ParasolAST.h:513-517 | A built-in function stores its name and parameters with no body, and points the name and parameters back. |
| `AstObjects.AstNode.Lambda` | prslc/ParasolAST.h:303-310 | Points only the parameters back. The body keeps the parent it had. |
| `AstObjects.AstNode.Case` | prslc/ParasolAST.h:327-333 | Stores the condition and result and points both back. |
| `AstObjects.AstNode.PsiExpr` | prslc/ParasolAST.h:346-348 | Stores the cases and points each back. |
| `AstObjects.AstNode.Let` | prslc/ParasolAST.h:366-372 | Stores the assignments and body and points all of them back. |
| `AstObjects.AstNode.IncludeDecl` | prslc/ParasolAST.h:390-396 | Stores the included name and the optional alias and points the ones present back. |
| `AstObjects.AstNode.Pipeline` | prslc/ParasolAST.h:423-429 | Stores the name and contents and points all of them back. |
| `AstObjects.AstNode.StructDef` | prslc/ParasolAST.h:455-461 | Stores the name and members and points all of them back. |
| `AstObjects.AstNode.Module` | prslc/ParasolAST.h:477-485 | Makes its own name node from the string and stores the declarations, all pointing back. |
| `AstObjects.AstNode.SetParents` | prslc/ParasolAST.h:64-485 | Points every given node back at this one. |
| `AstObjects.IntrinsicFunctionAsDeclared` | prslc/ParasolAST.h:513-517 | The built-in function's call to the function-definition constructor passes a null body, which that constructor's dereference does not allow. |
| `LegacyAst.InitChildren` | legacy/prslc/ParasolAST.h:56-434 | Points each child of the node's layout back at it. |
| `LegacyAst.MakeNode` | legacy/prslc/ParasolAST.h:19-24 | The factory builds the node from its arguments and then wires its children. |
| `LegacyAst.MakeModule` | legacy/prslc/ParasolAST.h:428-446 | A module makes a fresh name node and wires its declarations. |
| `LegacyAst.StealVarDecl` | legacy/prslc/ParasolAST.h:184-194 | The older stealing constructor takes name, type and index and the new scope, and nulls the old declaration. It does not wire the parts to the new node. |
| `Linking.DeclName` | prslc/Compiler.cpp:16-28 | Only pipelines and function definitions are registered by name. |
| `Linking.RegisteredFirst` | prslc/Compiler.cpp:16-28 | A name is registered exactly when some declaration has it, and it maps to one such declaration stored earlier in the pass. |
| `Linking.GlobalDeclPass` | prslc/Compiler.cpp:16-28 | The pass registers every pipeline and every function by name into one map. The first declaration of a name is kept, because a later one does not overwrite it. |
| `Linking.FindFrom` | prslc/Compiler.cpp:64-73 | The search from module `k` returns the first later module with the name and the declaration filed under it, or nothing when none has it. |
| `Linking.FindPipelineIn` | prslc/Compiler.cpp:64-73 | Returns the earliest module with the name and its declaration, or nothing when no module has the name. |
| `Linking.FindSameNames` | prslc/Compiler.cpp:64-73 | The search depends only on each module's registrations. |
| `Linking.LinkAfter` | prslc/Compiler.cpp:38-55 | After `k` calls the current pipeline is the last pipeline among them. |
| `Linking.LinkedModule` | prslc/Compiler.cpp:57-62 | Linking a module keeps its tree and its registrations. |
| `Linking.LinkAfterTargets` | prslc/Compiler.cpp:44-48 | After the walk, every include visited has a target, namely the search's result for its name. |
| `Linking.LinkAfterIncludes` | prslc/Compiler.cpp:44-52 | Each pipeline's includes are those it had, followed by the includes met while it was the last pipeline entered, in walk order. |
| `Linking.LinkedModuleState` | prslc/Compiler.cpp:38-62 | In a linked module every include of the typed walk has the search's target, and each pipeline's includes are exactly the ones attached to it. |
| `Linking.LinkAfterSameNames` | prslc/Compiler.cpp:38-62 | Linking depends only on the modules' registrations, so linking modules in turn sees the same registrations throughout. |
| `Linking.LinkUnit.constructor` | prslc/Compiler.h:32-56 | A new link unit has no modules. |
| `Linking.LinkUnit.GetModules` | prslc/Compiler.h:39 | Returns the module list. |
| `Linking.LinkUnit.DoModulePasses` | prslc/Compiler.cpp:30-32 | Runs the declaration pass, giving its registrations. |
| `Linking.LinkUnit.AddModule` | prslc/Compiler.h:49-56 | Appends the module with its registrations and nothing linked yet. |
| `Linking.LinkUnit.FindPipeline` | prslc/Compiler.cpp:64-73 | The loop over modules returns the search's result. |
| `Linking.LinkUnit.LinkIncludes` | prslc/Compiler.cpp:57-62 | Each module is replaced by its linked form, computed against the modules as they were. |
| `Linking.LinkUnit.Link` | prslc/Compiler.cpp:34-36 | Linking is linking the includes. |
| `Linking.IncludeVisitor.constructor` | prslc/Compiler.cpp:38-43 | A new visitor has no current pipeline. |
| `Linking.IncludeVisitor.OnInclude` | prslc/Compiler.cpp:44-48 | An include gets the search's result as its target and is appended to the current pipeline's includes. |
| `Linking.IncludeVisitor.OnPipeline` | prslc/Compiler.cpp:50-52 | A pipeline becomes the current one. |
| `Linking.IncludeVisitor.Call` | prslc/Compiler.cpp:44-54 | One call is one link step, and other nodes are ignored. |
| `Linking.IncludeVisitor.Walk` | prslc/Compiler.cpp:57-62 | Calling the visitor along a walk gives the state after all its steps. |
| `Linking.TwoDeclWalk` | prslc/Visitor.h:94-104 | A module with two childless declarations is walked as the module and then the two, in order. |
| `Linking.IncludeAfterPipeline` | prslc/Compiler.cpp:50-52 | The current pipeline is not reset at its end: an include after a pipeline, outside it, is attached to that pipeline. |
| `Linking.IncludeBeforePipeline` | prslc/Compiler.cpp:44-48 | An include before any pipeline of its module meets no current pipeline. |
| `Linking.FunctionFoundAsPipeline` | prslc/Compiler.cpp:23-26 | A function's name is found by the pipeline search, as the function itself. |
| `PyAst.IdCounter.constructor` | compiler/prslc/AST.py:7 | The counter starts at -1. |
| `PyAst.IdCounter.NextId` | compiler/prslc/AST.py:11-14 | Steps the counter and returns the new value. |
| `PyAst.FirstIds` | compiler/prslc/AST.py:7-22 | A fresh counter gives the nodes it numbers 0, 1, 2, ... in the order they are made. |
| `PyAst.ExprSize` | compiler/prslc/AST.py:18-19 | Every expression is made of at least one node, each taking one id. |
| `PyAst.PyNode.TU` | compiler/prslc/AST.py:28-31 | A new unit takes the next id and has no globals and no parent. |
| `PyAst.PyNode.Component` | compiler/prslc/AST.py:43-50 | A new component takes the next id and stores its name, with no items. |
| `PyAst.PyNode.Pipeline` | compiler/prslc/AST.py:62-69 | A pipeline is built like a component. |
| `PyAst.PyNode.TypeRef` | compiler/prslc/AST.py:78-86 | Takes the next id and stores the name and array size. |
| `PyAst.PyNode.FnCall` | compiler/prslc/AST.py:102-108 | Takes the next id after its arguments and points each argument back. |
| `PyAst.PyNode.BinaryOp` | compiler/prslc/AST.py:139-149 | Takes the next id after its operands and points both back. |
| `PyAst.PyNode.UnaryOp` | compiler/prslc/AST.py:125-132 | Takes the next id after its operand and points it back. |
| `PyAst.PyNode.Integer` | compiler/prslc/AST.py:208-213 | Takes the next id and stores the value. |
| `PyAst.PyNode.VarDecl` | compiler/prslc/AST.py:224-236 | Takes the next id and stores name, stage, type and index. A type present is pointed back. |
| `PyAst.PyNode.VarRef` | compiler/prslc/AST.py:244-250 | Takes the next id and stores the name. |
| `PyAst.PyNode.Push` | compiler/prslc/AST.py:33-35 | Appends the child and points it back. |
| `PyAst.MaxHeight` | compiler/prslc/AST.py:102-149 | Bounds the heights of a list of operands. |
| `PyAst.ShapesOf` | compiler/prslc/AST.py:102-108 | A list of operands has one shape per operand. |
| `PyAst.OperatorTable` | compiler/prslc/AST.py:158-170 | The table files exactly the given names, each under its own name. |
| `PyAst.OperatorTables` | compiler/prslc/AST.py:165-185 | The binary table holds exactly Gets, Add, Sub, Mult, Div and Dot. The unary table is empty. |
| `PyParse.Child` | compiler/prslc/Parse.py:13 | Indexing a child succeeds exactly below the child count. |
| `PyParse.ChildOf` | compiler/prslc/Parse.py:60 | Indexing an absent node fails. |
| `PyParse.DropLast` | compiler/prslc/Parse.py:71 | Slicing off the last character of a non-empty text, and nothing from an empty one. |
| `PyParse.CastIdent` | compiler/prslc/Parse.py:66-73 | An absent node gives none, and a rule node fails. A marked token drops its last character, IDENT keeps its text, and any other token gives none. |
| `PyParse.CastInteger` | compiler/prslc/Parse.py:75-79 | An absent node gives none. A token not of type INTEGER fails. An INTEGER converts exactly when its text is a decimal, to that value. |
| `PyParse.CastIntegerRoundTrip` | compiler/prslc/Parse.py:75-79 | A printed integer converts back to itself. |
| `PyParse.Values` | compiler/prslc/Parse.py:40 | Unwrapping keeps the values in order. |
| `PyParse.ConvertedTerminal` | compiler/prslc/Parse.py:55-57 | Only an INTEGER token gives a node, an Integer. Any other terminal gives none. |
| `PyParse.ConvertedTypeRef` | compiler/prslc/Parse.py:62-64 | An absent type gives none. |
| `PyParse.ConvertedVarDecl` | compiler/prslc/Parse.py:59-60 | A converted declaration carries the given stage. |
| `PyParse.ConvertedExpr` | compiler/prslc/Parse.py:31-53 | An absent expression gives none. |
| `PyParse.ConvertedStaged` | compiler/prslc/Parse.py:35-36 | A staged declaration gives a declaration. |
| `PyParse.ConvertedFnCall` | compiler/prslc/Parse.py:39-40 | A call gives a call. |
| `PyParse.ConvertedBinary` | compiler/prslc/Parse.py:45-46 | A node with a name outside the binary table fails with a lookup error before its operands are converted. Success gives a binary operation of a known operator. |
| `PyParse.ConvertedExprForms` | compiler/prslc/Parse.py:31-53 | Each form holds exactly when its condition does. A declaration comes from the two declaration names, a call from fncall, a reference from varref. Otherwise two children give a binary node named by the rule, one child always fails the lookup in the empty unary table, and an Integer or nothing comes from a typed token. |
| `PyParse.ConvertedArgs` | compiler/prslc/Parse.py:40 | Converting the first `k` arguments gives `k` results. |
| `PyParse.ArgsFailureStays` | compiler/prslc/Parse.py:40 | Once an argument fails, the conversion of the list fails with that error. |
| `PyParse.ArgsStep` | compiler/prslc/Parse.py:40 | The arguments are converted left to right, and the first failure is the list's failure. |
| `PyParse.OptsSizeValues` | compiler/prslc/Parse.py:40 | When all arguments are present, their node count is the count of their values. |
| `PyParse.ShapesOfEach` | compiler/prslc/AST.py:102-108 | The `j`th shape of a list is the shape of its `j`th node. |
| `PyParse.ShapesOfValues` | compiler/prslc/AST.py:102-108 | Nodes with the given shapes, one by one, have that list of shapes. |
| `PyParse.ArgsOutcome` | compiler/prslc/Parse.py:40 | A call whose argument gives none fails when the call is built. Otherwise its arguments are all the converted nodes, in order. |
| `PyParse.ArgsSizeSnoc` | compiler/prslc/AST.py:11-19 | Adding an argument adds its node count. |
| `PyParse.GlobalsSizeSnoc` | compiler/prslc/AST.py:11-19 | Adding a declaration adds its node count. |
| `PyParse.ValuesSnoc` | compiler/prslc/Parse.py:40 | Unwrapping distributes over appending one value. |
| `PyParse.ConvertTerminalValue` | compiler/prslc/Parse.py:55-57 | Builds exactly the terminal's conversion, raising its error, and uses one id per node made. |
| `PyParse.ConvertTypeRef` | compiler/prslc/Parse.py:62-64 | Builds the type node the conversion describes, or nothing for an absent type, raising its error. |
| `PyParse.ConvertVarDecl` | compiler/prslc/Parse.py:59-60 | Builds the declaration described, with its type made first and numbered before it. |
| `PyParse.ConvertExpr` | compiler/prslc/Parse.py:31-53 | Builds exactly the expression the conversion describes, or raises its error. Ids are taken children first, one per node. |
| `PyParse.ConvertFnCall` | compiler/prslc/Parse.py:39-40 | Builds the call with its arguments converted first. |
| `PyParse.BuildCall` | compiler/prslc/AST.py:102-108 | Makes the call node over argument nodes that are all present, and fails otherwise. |
| `PyParse.ConvertArgs` | compiler/prslc/Parse.py:40 | The loop converts each argument in turn and stops at the first error. |
| `PyParse.ConvertBinary` | compiler/prslc/Parse.py:45-46 | Builds the binary node over both converted operands. |
| `PyParse.ConvertedItem` | compiler/prslc/Parse.py:24-29 | Only an assignment converts, to a Gets node. Any other named item fails. |
| `PyParse.ConvertedItems` | compiler/prslc/Parse.py:19-20 | Converting the first `k` items gives `k` items. |
| `PyParse.ItemsInOrder` | compiler/prslc/Parse.py:19-20 | The `j`th converted item is the conversion of the `j`th child. |
| `PyParse.ItemsStep` | compiler/prslc/Parse.py:19-20 | Items are converted in order, and the first failure is the list's failure. |
| `PyParse.ItemsFailureStays` | compiler/prslc/Parse.py:19-20 | Once an item fails, the whole list fails with that error. |
| `PyParse.ConvertedGlobal` | compiler/prslc/Parse.py:10-22 | Only a component or a pipeline converts, and the kind follows the rule's name. |
| `PyParse.ConvertedGlobalPrefix` | compiler/prslc/Parse.py:4-8 | Converting the first `k` declarations gives `k` of them. |
| `PyParse.ConvertedGlobals` | compiler/prslc/Parse.py:4-8 | A converted unit has one declaration per child. |
| `PyParse.GlobalsInOrder` | compiler/prslc/Parse.py:4-8 | The `j`th converted declaration is the conversion of the `j`th child. |
| `PyParse.GlobalsStep` | compiler/prslc/Parse.py:6-7 | Declarations are converted in order, and the first failure is the unit's failure. |
| `PyParse.GlobalsFailureStays` | compiler/prslc/Parse.py:6-7 | Once a declaration fails, the unit fails with that error. |
| `PyParse.ConvertComponentItem` | compiler/prslc/Parse.py:24-29 | Builds exactly the assignment the conversion describes, or raises its error. |
| `PyParse.ConvertGlobal` | compiler/prslc/Parse.py:10-22 | Makes the component or pipeline first, then pushes each converted item onto it. Its items point back at it and were made after it. |
| `PyParse.PushItems` | compiler/prslc/Parse.py:19-20 | The loop pushes each converted item in order and stops at the first error. |
| `PyParse.AddItem` | compiler/prslc/Parse.py:20 | Converts one item and pushes it after those already there. |
| `PyParse.ConvertGlobalList` | compiler/prslc/Parse.py:4-8 | Makes the unit first, then pushes each converted declaration in order. The result has exactly the declarations described, each pointing back at the unit. |
| `PyParse.AddGlobal` | compiler/prslc/Parse.py:7 | Converts one declaration and pushes it after those already there. |
| `PyParse.PushGlobals` | compiler/prslc/Parse.py:6-7 | The loop pushes each converted declaration in order and stops at the first error. |
| `PyTypes.CombineBinary` | compiler/prslc/Types.py:18-28 | Array sizes that differ give none, checked before anything else. With equal sizes it fails exactly when the operation has no table or the table lacks the pair. Otherwise the result is the table's type with the left size. |
| `PyTypes.MultResults` | compiler/prslc/Types.py:9-15 | Multiplication types int by int, float by float, mat4 by mat4, and mat4 by vec4, for any common array size. |
| `PyTypes.OnlyMultTyped` | compiler/prslc/Types.py:22 | Every other operation fails, naming itself. |
| `PyTypes.MultUndefined` | compiler/prslc/Types.py:26-27 | A missing pair fails with a message naming the operation and both operand types. |
| `PyTypes.VectorTimesMatrix` | compiler/prslc/Types.py:9-15 | The table is not symmetric: vec4 by mat4 has no type. |
| `PyTypes.CombineNative` | compiler/prslc/Types.py:2-15 | Every typed result and operand is a native type. |
| `Scopes.LexicalScope.constructor` | compiler/prslc/Scope.py:3-7 | A new scope has its name, owner and parent and no bindings. |
| `Scopes.LexicalScope.Nested` | prslc/parasol/AST.py:27-29 | A later-front-end scope has only a parent and no bindings. |
| `Scopes.LexicalScope.Chain` | compiler/prslc/Scope.py:9-14 | A scope's chain is itself followed by its enclosing scopes. |
| `Scopes.LexicalScope.Lookup` | compiler/prslc/Scope.py:9-14 | A local binding wins. A name is unbound exactly when no scope on the chain binds it. |
| `Scopes.LexicalScope.Set` | compiler/prslc/Scope.py:16-17 | Binding a name changes only this scope, makes the name look up to the value, and leaves every other name's lookup as it was. |
| `Scopes.LookupIsFirstBinding` | prslc/parasol/AST.py:31-37 | Lookup returns the binding of the innermost scope on the chain that binds the name. |
| `Scopes.AncestorsValid` | compiler/prslc/Scope.py:3-7 | Every enclosing scope is well formed, and its own chain is the rest of the chain. |
| `Scopes.NotOwnAncestor` | compiler/prslc/Scope.py:3-7 | No scope encloses itself. |
| `ParasolAst.NodeIds.constructor` | prslc/parasol/AST.py:41 | The counter starts at zero with nothing handed out. |
| `ParasolAst.NodeIds.NewId` | prslc/parasol/AST.py:43-46 | Returns the current counter and steps it. The id is new. |
| `ParasolAst.IssuedDistinct` | prslc/parasol/AST.py:43-51 | Ids handed out by one counter are increasing, distinct and below the counter. |

## Left out

- Parsing: the grammar-driven parser (`Parser.cpp`, `ParasolPT.h`, the Python `Parser.py` and `parasol_parser`) is not part of this model. The Python conversion takes the parse tree as a value.
- I/O: reading the input file, the command-line driver (`main.cpp`) and writing DOT files are left out. The DOT printer is modelled only as its escaping (`dotSanitize`) and tag printing (`printNodeType`). The Python `dot` methods and the graphviz export are left out for the same reason.
- Memory: ownership and deletion of nodes (`unique_ptr`, destructors) are not modelled. A tree is reached only from its root.
- `Lexing.ExtractsFloat`: the value of a float literal is not computed, because floating point is outside the model. A float token keeps its literal text. The read succeeds when the text holds a digit and the digits before the '.' stay below 2^128 - 2^103, which is where a correctly rounded 32-bit read overflows. This assumes the stream read fails on overflow, as the C++ standard library's `num_get` does.
- `Lexing.Lexer.Next`: the token's pointer to the string table is not stored. The caller's token is taken as given and only its kind, value and line are written.
- `StringTables.LookupToken`: for a digraph's pair token (GOESTO) the source appends '=' and the first token's code and then runs off the end without returning. For a token in no table it also runs off the end. Both are undefined behaviour in C++, so the precondition admits only tokens for which a `return` is reached.
- `Ast.Reached`: the walks, the ID visitor, the renderers and linking are stated over a finished tree as a value, not over the pointer structure. Sharing and cycles between nodes are therefore excluded. The construction-time wiring is modelled separately on objects (`AstObjects`, `LegacyAst`).
- `AstObjects.AstNode.FloatLit`: the float payload is not modelled.
- `Dot.PrintNodeType`: the current tree's tag type is 32 bits (`prslc/ParasolAST.h:32`). The older header's 64-bit tag type (`legacy/prslc/ParasolAST.h:41`) is not modelled.
- `PyParse.CastInteger`: `int()` also accepts surrounding whitespace, a '+' sign and '_' between digits. The model reads plain optionally-signed decimals only.
- `PyParse.CastIdent`: the `repr` in error messages is not modelled; every conversion error is a `ConversionError` with the message the source builds by concatenation. A non-string concatenation in the source (a `None` name or type in an error message) is modelled as the `NotANode` fault.
- `PyTypes.UndefinedMessage`: Python's `repr` of the operand pair is written for plain names without quotes or backslashes.
- `LegacyAst.StealVarDecl`: models the stealing constructor alone, which writes no parent. A node built through `make_node` is wired afterwards by `initChildren`, as `LegacyAst.MakeNode` states.
- Python: type checking beyond `combine_binary`, translation (`Translate.py`), helpers (`Util.py`, `Functions.py`) and the later front end's parser are not part of this model. From `prslc/parasol/AST.py` only the scope lookup and the node-id counter are modelled. `ParasolAst.NodeIds` models `Node.__init__` and `_new_id` as they would run: as written the module does not import (line 16, an `else:` with no body), and the subclass constructors pass `self` twice to `super().__init__` (lines 56, 64, 69, 76, 84, 91), which raises before any id is taken.
- Line numbers carried by the Python nodes, and the C++ lexer's position iterators, are not modelled. The lexer's cursor is an index into the text.
- `Pipeline::resolveFunction`, `resolveVariable`, `getFunction`, `getVariable` and `Module::getPipeline`, `getGlobalFunction`, `getPipelineFunction`, `getVariable` are declared (`prslc/ParasolAST.h:443-448`, `498-509`) but defined nowhere in the source, so they are left out.
- The include visitor's debug output on each include (`prslc/Compiler.cpp:45`) is I/O and is left out.
- `Linking.IncludesOwned`: an include met before any pipeline makes the visitor append through a null current pipeline (`prslc/Compiler.cpp:47`). That crash is not modelled. Linking requires every include to follow a pipeline, and `Linking.IncludeBeforePipeline` exhibits a tree that breaks the requirement.
- `Linking.PassReady`: the declaration pass dereferences three things without a check (`prslc/Compiler.cpp:17-25`): the module's declaration list, a null entry in it, and a function whose declaration has no name. A module may be built with a null list (`prslc/ParasolAST.h:484`); the walks guard that case (`prslc/Visitor.h:23`), but the pass does not (`prslc/Compiler.cpp:17`). None of these crashes is modelled: a module's declarations are always a list, and the pass requires neither a null entry nor a nameless function.
- `Ast.Node`: every list-bearing kind always carries a list, possibly empty. The C++ constructors also accept a null list, and both walks then dereference it without a check:
  - a function call's arguments, `prslc/ParasolAST.h:244`; walks at `prslc/Visitor.h:50` and `prslc/Visitor.h:141`;
  - a psi expression's cases, `prslc/ParasolAST.h:346`; walks at `prslc/Visitor.h:61` and `prslc/Visitor.h:157`;
  - a pipeline's contents, `prslc/ParasolAST.h:428`; walks at `prslc/Visitor.h:31` and `prslc/Visitor.h:110`;
  - a struct's members, `prslc/ParasolAST.h:460`; walks at `prslc/Visitor.h:82` and `prslc/Visitor.h:185`.

  Where the source crashes on a null list, the value tree walks an empty one. `AstObjects` keeps the null list as `hasList` for each of these kinds.
- `Visitors.ApplyVisitorSlots`: the walks handle tag 'csst' by casting to `CaseSet` (`prslc/Visitor.h:59`, `prslc/Visitor.h:153`), a type no file of this source declares. The only node with that tag is `PsiExpr` (`prslc/ParasolAST.h:359`), so the model reads the cast as one to `PsiExpr` and walks its cases.
- `PyParse.ConvertFnCall`, `PyParse.ConvertBinary`: when an operand converts to `None`, the source takes the new node's id and may point earlier operands at the new node before `None.parent` raises (`compiler/prslc/AST.py:102-108`, `compiler/prslc/AST.py:139-149`). The model fails with `NotANode` before building the node. It promises nothing about the id counter or the operands' parents after a failure.

Behaviour of the source that the model keeps as written:

- `globalDeclPass` files function definitions in `mod->pipelines`, the same map as pipelines (`prslc/Compiler.cpp:23-26`). So `findPipeline` can return a function definition (`Linking.FunctionFoundAsPipeline`).
- The symbol table holds '-' (`prslc/Lexer.cpp:18`), and `next` tries the symbol step before the number step (`prslc/Lexer.h:162`). So a '-' always lexes as MINUS, and the '-' branch of `nextNumber` (`prslc/Lexer.h:83-87`) is never reached from `next`.
- The number loop's digit test is `c > '0' && c < '9'` (`prslc/Lexer.h:95`). It is strict at both ends, so only the digits '1' to '8' are taken.
- The loop of `nextID` tests `c`, the first character, on every pass instead of the current one (`prslc/Lexer.h:136-139`). It therefore consumes the rest of the input and interns that first character repeated.
- `Lexer.h` declares the string table with only the vector `strings` (`prslc/Lexer.h:23-31`). `pushString` in `prslc/Lexer.cpp:40-52` also uses a map of previous locations, and the model follows `Lexer.cpp`.
- The include visitor sets the current pipeline on each pipeline (`prslc/Compiler.cpp:50-52`) and never clears it. An include met after a pipeline's subtree is still appended to that pipeline (`Linking.IncludeAfterPipeline`).

## Findings

| source | as written | input that shows it | evidently intended | confidence | as-written member | corrected member |
|---|---|---|---|---|---|---|
| prslc/ParasolAST.h:513-517 | A built-in function calls the function-definition constructor with a null body, and that constructor dereferences the body (line 278). | Any intrinsic function, for example one named `sin` with no parameters. | A built-in function has no body, and nothing reads through the missing body. | not executed | `AstObjects.IntrinsicFunctionAsDeclared` | `AstObjects.AstNode.IntrinsicFunction` |
