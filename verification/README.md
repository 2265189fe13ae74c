# xmlwriter: a verified model

xmlwriter is a Go library that writes XML as a stream. A `Writer` keeps a stack of open nodes and never looks
back: `Start`, `Write` and `End` calls move the innermost node through three states (open, opened, ended), and
every transition prints a fragment chosen from the node's state, its number of children and the namespaces it
still has to declare. The repository also holds test tools in C and Go that turn XML into scripts and replay
the scripts through the writer.

This project models both and proves what they are for:

* The bytes that a writer has printed are, after every call of every run without errors, the text of the
  partial document that the calls have built, and after `EndAll` a recursive print of the whole forest
  (`Writer`, `Runs`). The document (`Trees`) is a zipper of open nodes and finished trees and never mentions
  the output.
* A reader for documents without a DTD gets that document back from the bytes exactly when a condition on the
  document holds, which says what enforcing leaves to the caller (`Reader`, `ReaderProofs`, `TreeReads`, `Exact`,
  `Returns`, `DocReads`, `Enforced`, `RoundTrip`). The reader follows sections 2.2 to 2.8, 2.11, 3.1, 3.3.3, 4.1
  and 4.3.3 of XML 1.0, with one root, distinct attributes and UTF-8 as the only encoding; where it departs from
  them it is stricter.
* Document type declarations are read back by a reader of their own, for productions [28] to [83] as far as they are
  printed: name, identifiers and every declaration of the subset, exactly when these are clear (`Doctype`,
  `DoctypeReads`). The XML declaration says what the fields of the Doc and the settings ask for (`XmlDecl`).
* Escaping is total, yields well-formed text and is undone by reading; delimited sections and literals read back, with
  exact conditions where they do not always. What the tables of characters hold is stated code by code (`Tables`).
* Elements given as a whole and elements written call by call come out the same, exactly when the node slice
  does not have to grow at one particular moment, which the element and the capacity decide (`Structured`).
* With an indenter the bytes are, after every call, the laid out text of the document: a recursive print with line
  breaks, defined without events (`Lines`). Their depth and what they keep away from are read off it (`Indented`),
  and what a line break is, byte by byte (`LineText`). Without mixed content there is one node to a line (`Pretty`).
* The node slice is a function of the document (`Tally`).
* The test tools: SHA-256 over any split of the message, with its constants as roots of primes (`Primes`,
  `Sha256Constants`) and a known digest (`Sha256Example`), content models printed and parsed, attributes split
  into commands and rebuilt by the writer, a declaration parser, a growing buffer.

The writer is a class with an array-backed node slice. Go's `append` moves a full slice to a larger array and
leaves the old one behind; both are kept, because `node.end` goes on with a pointer it took before the node's
content was written. How much larger the new array is, is a parameter (`grow`). Ghost fields carry the
document (`doc`) and whether every call so far has succeeded and fitted the tree (`clean`). Go strings are
sequences of bytes; a byte is written as the character with that code.

## Facts about the code that the proofs bring out

Where the code and its documentation disagree, the model follows the code.

* An element that is ended while still unopened writes its content through a pointer that may be stale
  afterwards. When the first item of the content makes the node slice grow, the end tag is lost
  (`Structured.StylesAgree`, `Structured.CutShortens`, `Structured.StartComplete`). A new writer has eight slots,
  so a chain of nine elements nested by `Content` loses one end tag and a chain of eight loses none
  (`Structured.ChainComplete`).
* Text loses its carriage returns in a conforming reader, because `EscapeString` does not escape them
  (`EscapeProofs.TextSurvivesIff`); so do comments, CDATA sections and processing instructions. Attribute values
  keep theirs (`Returns.LinesReadBackIff`, `Returns.NodesSurviveIff`).
* `CheckChars` accepts strings that are not UTF-8, and its `strict` flag changes nothing. `CheckName` is sound
  for production [5] of XML 1.0 and not complete (`Check.ValidNameIff`).
* `CheckName` accepts the empty name. A processing instruction without a target and an attribute without a name
  are therefore accepted, and no reader takes what is printed (`ReaderProofs.UnnamedPI`, `ReaderProofs.PIReadsIff`,
  `ReaderProofs.RefusedAttributes`).
* Two attributes with the same name are accepted; a reader stops there (`ReaderProofs.StartTagReadsIff`,
  `ReaderProofs.RefusedAttributes`).
* A comment that ends in a hyphen is accepted, and production [15] does not allow what is printed for it
  (`ReaderProofs.HyphenComment`, `ReaderProofs.AcceptedCommentIff`).
* A comment that is written in several pieces can end at a "-->" that two accepted pieces make together
  (`ReaderProofs.TwoPiecesCanEndEarly`).
* A Doc without a version, or with a version that is not a version number, prints a declaration that production [23]
  does not allow. One that declares an encoding other than UTF-8 is accepted although the bytes are UTF-8 unless an
  encoder is put behind the writer; section 4.3.3 makes that an error (`RoundTrip.DeclOkIff`).
* The public identifier of a notation without a system identifier is not checked, so it may hold a quote that
  cuts it short (`Literals.NotationCutShort`).
* The specification of an element in a DTD and the type of an attribute are printed as they are. Empty ones, and ones
  that hold '>', are accepted and not read back (`DoctypeReads.ElementReads`, `DoctypeReads.AttDefReads`).
* An attribute whose name is refused can leave its namespace recorded; such a call counts as failed half-way.
* After an element with content given in advance, the writer remembers the opening of the element as its last
  event, so an indenter may put a line break next to text (`Indented.BreaksKeepAwayIff`, `Indented.ContentBreaks`).
* `Depth` returns the index of the innermost open node, one less than the number its comment promises;
  `EndToDepth` is written for that index (`Nesting.EndToDepthScope`).
* A processing instruction does not stand on a line of its own, nor does anything after it, unlike a comment
  (`Pretty.WithinLine`, `Ahead.BreaksKeepAway`).
* `Doc` prints no space before "?>" when it has attributes, and the entity example ends in ";": the examples at
  nodes.go:240 and dtd.go:125 show otherwise (`XmlDecl.ParserSays`, `DoctypeReads.EntityReads`).
* A namespace declared with the empty URI is lost on the way through the test script exactly when its prefix
  is used (`AttrRebuild.RebuildIff`).

## Model

| member | source | states |
|---|---|---|
| `Utf8.DecodeRune` | printer.go:94-96 | a decoded rune is a scalar value that takes at least one byte and no more than there are; ASCII bytes stand for themselves and occur in no longer form |
| `Utf8.DecodeEncode` | printer.go:132-134 | decoding the UTF-8 form of a scalar value gives it back, whatever follows (section 3 of RFC 3629) |
| `Utf8.EncodeDecode` | printer.go:132-134 | a rune that is not the width-1 U+FFFD for a bad byte is exactly the bytes it was decoded from |
| `Tables.EncodedInOrder` | printer.go:132-134 | UTF-8 forms sort as the characters do (section 1 of RFC 3629) |
| `Printer.Printer.EscapeFrom` | printer.go:129-159 | the chunked copy loop appends the rune-by-rune image of its argument |
| `Printer.Printer.EscapeString` | printer.go:129-159 | text is printed as its rune-by-rune image |
| `Printer.Printer.EscapeAttrString` | printer.go:67-127 | an attribute value is printed as its longest harmless prefix, unchanged, and the image of the rest |
| `EscapeProofs.DecodeEscaped` | printer.go:129-159 | for every byte string, replacing the references of the image gives the string, with bad bytes and runes that are no Char replaced by U+FFFD |
| `EscapeProofs.EscapedBytes` | printer.go:129-159 | the image holds no '<', '>' or double quote, and for attributes no tab or line end |
| `EscapeProofs.EscapedIsText` | printer.go:267-274 | the image of every byte string is well-formed UTF-8 and made of Chars (production [2]) |
| `EscapeProofs.AmpersandsAreReferences` | printer.go:135-156 | every ampersand of the image begins one of the five references (eight in attributes) |
| `EscapeProofs.SanitisedIsText` | printer.go:267-274 | what reading gives back is well-formed UTF-8 made of Chars |
| `Tables.EscapedRunes` | printer.go:67-159 | escaping prints the runes of a string one by one: five of them, in attributes eight, as the references with their numbers, bad bytes and runes that are no Char as U+FFFD, and all others in UTF-8 |
| `Tables.UnfitPrinted` | printer.go:54 | a bad byte or a rune that is no Char is printed as EF BF BD, which decodes to U+FFFD in three bytes |
| `Tables.SanitisedRunes` | printer.go:129-159 | what reading gives back has the codes of the runes that were written, and 0xFFFD for each that is bad or no Char |
| `Tables.FastIff` | printer.go:67-80 | the bytes that end the harmless prefix of an attribute value |
| `EscapeProofs.AttributeSurvives` | printer.go:67-127 | for every byte string, line-end handling and attribute-value normalisation of the printed value return it with tabs and line ends, up to U+FFFD replacement; it holds no quote |
| `EscapeProofs.TextReads` | printer.go:129-159 | what a reader that handles line ends first takes from printed text |
| `EscapeProofs.TextSurvivesIff` | printer.go:129-159 | text survives such a reader if and only if it holds no carriage return |
| `Check.CheckName` | check.go:30-53 | the two loops accept exactly the names of the table: empty, or a start rune and name runes |
| `Check.ValidNameSound` | gentables.go:33-47 | an accepted non-empty name matches production [5] and is well-formed UTF-8 |
| `Check.ValidNameIff` | gentables.go:33-47 | a name of production [5] is accepted if and only if all its runes are at most U+037D, or U+203F or U+2040 |
| `Check.ValidNameIncomplete` | gentables.go:33-47 | a name of production [5] that is refused |
| `Tables.NameCharIff` | gentables.go:33-47 | the ASCII characters of a name, and those it may start with |
| `Check.CheckChars` | check.go:57-85 | accepts exactly the strings whose runes are Chars, whatever the strict flag says |
| `Tables.CharIff` | check.go:57-85 | the characters of production [2], by code |
| `Check.CharsNotWellFormed` | check.go:57-85 | a string that is accepted and not UTF-8 |
| `EscapeProofs.SaneIffText` | check.go:57-85 | a string is UTF-8 made of Chars if and only if there is nothing to replace in it, which for an accepted string means no bad byte |
| `Check.CheckPubID` | check.go:89-105 | accepts exactly the strings of public identifier characters |
| `Tables.PubIdCharIff` | check.go:89-105 | the characters of production [13], by code |
| `Tables.XhtmlAccepted` | check.go:89-105 | the public identifier of XHTML 1.0 is accepted |
| `Check.CheckEncoding` | check.go:10-28 | accepts exactly the empty string and the names of production [81] |
| `Tables.EncodingCharIff` | check.go:10-28 | the characters of production [81], by code, and those a name of an encoding may start with |
| `Printer.Printer.PrintAttr` | printer.go:249-265 | prints the attribute, or nothing when the name is refused, and says which |
| `Printer.Printer.WriteLiteral` | printer.go:184-226 | prints the literal in a quote that fits; fails when enforcing exactly if both quotes occur |
| `Printer.Printer.WriteExternalID` | printer.go:161-182 | prints the external identifier; fails when enforcing exactly on unacceptable pairs |
| `Literals.LiteralReadsIff` | printer.go:184-226 | scanning to the matching quote recovers a system identifier or entity value if and only if it does not hold both quotes |
| `Literals.ExternalIdReadsIff` | printer.go:161-247 | a PUBLIC/SYSTEM pair reads back if and only if the public part holds no double quote and the system part not both quotes |
| `Literals.AcceptedIdsRead` | printer.go:161-182 | every pair that enforcing accepts reads back |
| `Literals.NotationReadsIff` | dtd.go:417-453 | an accepted notation reads back if and only if its public identifier holds no double quote |
| `Literals.NotationCutShort` | dtd.go:417-453 | an accepted notation whose identifier is cut short |
| `DoctypeReads.ElementReads` | dtd.go:90-117 | an element declaration reads back if and only if its specification is not empty, holds no '>' and does not begin with white space |
| `DoctypeReads.AttDefReads` | dtd.go:351-405 | an attribute declaration reads back with its default (required, implied, fixed or a value) if and only if its type is not empty, holds no quote, '#' or angle bracket and does not begin with white space |
| `DoctypeReads.AttListReads` | dtd.go:253-285 | an attribute list reads back with all its declarations if and only if all their types are such |
| `DoctypeReads.EntityReads` | dtd.go:149-213 | an accepted entity declaration always reads back: general or parameter, internal or external, parsed or not |
| `DoctypeReads.NotationReads` | dtd.go:417-453 | an accepted notation declaration reads back if and only if it has a system identifier or no double quote in its public one |
| `DoctypeReads.DeclReads` | dtd.go:86-453 | a declaration of any kind, or a comment between them, is read back by the reader of production [29] if and only if it is clear: as above, and for a comment as in production [15] |
| `DoctypeReads.FullDtdText` | dtd.go:46-60 | a DTD with declarations prints " [" after its head and ends in "]>" |
| `DoctypeReads.EmptyDtdText` | dtd.go:46-60 | a DTD without any prints '>' right after its head |
| `DoctypeReads.DoctypeReadsIff` | dtd.go:28-60 | print, then parse: the reader of production [28] returns the name, the identifiers and all declarations if and only if each declaration is clear |
| `DoctypeReads.SoundDoctypeReads` | dtd.go:28-60 | the same for every DTD that an enforcing writer builds |
| `Leaves.CheckBody` | nodes.go:60-76 | a comment or CDATA body is accepted exactly if it does not hold the forbidden string and is made of Chars |
| `Leaves.CheckPI` | nodes.go:360-376 | a processing instruction is accepted exactly if its target is a name other than xml, in any case, and its content does not hold its terminator |
| `Leaves.PrintEntity` | dtd.go:149-213 | prints the entity declaration of the specification, and fails exactly if its identifiers or value are not acceptable |
| `Leaves.PrintAttDecl` | dtd.go:351-405 | prints an attribute declaration with its resolved default, and fails exactly if a default that takes no value has one |
| `Leaves.PrintNotation` | dtd.go:417-453 | prints the notation declaration, and fails exactly if its identifiers are not acceptable |
| `Indenter.StandardIndenter.Indent` | indenter.go:58-124 | the second stack keeps one level more than the depth, the depth follows the events, and one line break at that depth is put in exactly when the pair of events calls for it |
| `LineProofs.LaidPlain` | indenter.go:58-124 | the laid out text of a partial document without its line breaks is its text |
| `LineProofs.TellStart` | node.go:82-113 | telling an indenter of the start of a node gives the line breaks and counters of the document with that node |
| `LineProofs.TellLeaf` | writer.go:486-499 | telling it of a leaf gives those of the document with that leaf |
| `LineProofs.TellEnded` | node.go:151-190 | telling it of the end of a node gives those of the document with that node finished |
| `LineProofs.TextIsSpaced` | indenter.go:104-121 | the laid out text is the plain text with its line breaks put in at their offsets |
| `LineText.BreakPrinted` | indenter.go:112-116 | a line break of level n is the new line string and then n units, each at its place |
| `LineText.TextPrinted` | indenter.go:104-121 | the laid out text holds every part at the sum of the widths before it, and every line break as such |
| `Writer.Writer.constructor` | writer.go:71-86 | a new writer has eight slots, an empty document and no output |
| `Writer.Writer.CheckParent` | writer.go:464-484 | a node is allowed exactly under the kinds listed for it |
| `Writer.Writer.Append` | writer.go:453-455 | a full slice moves to a larger array and the old array is left behind unchanged |
| `Writer.Writer.SearchNs` | attr.go:83-94 | finds the first namespace with the attribute's prefix, and a conflict exactly if its URI differs |
| `Writer.Writer.WriteAttr` | attr.go:62-107 | an attribute joins the start tag of the element that is being started; a prefix with a different URI is refused and changes nothing; anything else that is accepted leaves the tree |
| `Writer.Writer.PrintUndeclared` | elem.go:99-109 | prints each declaration that is not yet printed once, in order, and marks it |
| `Writer.Writer.OpenElem` | elem.go:63-97 | prints name, own namespace and given attributes, and pushes exactly that tag on the document |
| `Writer.Writer.OpenDoc` | nodes.go:285-342 | prints the XML declaration with the declared version, encoding and standalone status |
| `Writer.Writer.OpenDTD` | dtd.go:28-44 | prints the document type declaration up to its subset, or fails on an unacceptable name or identifier |
| `Writer.Writer.Enter` | node.go:115-149 | the node becomes opened, its declarations are printed and its start tag is closed by what its children and content call for |
| `Writer.Writer.Next` | writer.go:122-132 | the innermost node counts a child, and is opened with its content if it was not |
| `Writer.Writer.WriteContent` | elem.go:116-136 | every item of an element's content is written once, in order, whatever the slice does meanwhile |
| `Writer.Writer.NodeOpened` | node.go:115-149 | opening a node takes the document to the one with that node opened and its content in it, and remembers the event through the pointer |
| `Writer.Writer.PushBegin` | writer.go:447-457 | the parent is checked, a slot is there, the innermost node is opened |
| `Writer.Writer.Start` | elem.go:33-43 | a start call is refused without effect, fails half-way, or pushes a fresh node, as the document says |
| `Writer.Writer.WriteLeaf` | nodes.go:33-52 | writing a leaf opens the innermost node and attaches the leaf, or is refused without effect |
| `Writer.Writer.WriteStartable` | elem.go:45-53 | writing a node is starting and ending it |
| `Writer.Writer.PopFresh` | node.go:151-190 | ending an unopened node writes its content and attaches its tree; the tree says whether the stale pointer lost its end tag |
| `Writer.Writer.PopEntered` | node.go:151-190 | ending an opened node attaches its tree with its end tag |
| `Writer.Writer.Pop` | writer.go:501-530 | every node below the one that is ended is untouched |
| `Writer.Writer.NamesMatch` | writer.go:352-383 | names are accepted exactly if they fit the field of the given kind, which is empty in a node of another kind |
| `EndTags.EndNamesIff` | writer.go:348-385 | an End call finishes the innermost node if and only if it is of the kind and the names are its own: for an element its local name, or its prefix and then its local name |
| `EndTags.EndTagNames` | elem.go:140-147 | an End call that is given a prefix and a name prints an end tag with these |
| `Writer.Writer.End` | writer.go:348-385 | refused without effect unless kind and names fit, and otherwise finishes the innermost node |
| `Writer.Writer.EndElemFull` | writer.go:326-331 | the node is marked before its kind is looked at, and then ended |
| `EndTags.ShortAndFull` | elem.go:111-147 | without content, EndElem adds "/>" to the start tag and EndElemFull ">" and an end tag |
| `Writer.Writer.EndAny` | writer.go:334-339 | finishes the innermost node, of whatever kind |
| `Writer.Writer.EndAll` | writer.go:388-398 | finishes all nodes, innermost first |
| `Writer.Writer.EndToDepth` | writer.go:418-429 | finishes the nodes above the limit and then one of the given kind, for any depth; a refusal at that point keeps what was finished |
| `Writer.Writer.EndDoc` | writer.go:290-302 | the same down to the outermost node, which has to be a Doc |
| `Writer.Writer.WriteRaw` | nodes.go:14-27 | prints the string and leaves the tree |
| `Runs.Do` | writer.go:122-530 | one call: the new state is that of the document's step, and a failed or unstructured call is known to be one |
| `Runs.Run` | writer.go:122-530 | streaming refines printing a tree: after every error-free run the bytes, without an indenter, are the text of the partial document that the calls have built |
| `Runs.IsTracked` | writer.go:443-445 | between calls the output is the text of the document, laid out if there is an indenter, the slots are its open nodes, and the indenter has a counter for each level |
| `Tally.SlotsDetermined` | writer.go:122-132 | the slots in use are a function of the open nodes: states, namespaces and child counts |
| `Runs.StepTally` | writer.go:122-132 | every call keeps the child counts at the number of children, one more where a child is open |
| `Runs.RunAndClose` | writer.go:387-398 | after EndAll the stack is empty and the bytes are a recursive print of the forest, laid out if there is an indenter |
| `Runs.WriteAll` | writer.go:153-160 | writing a list of nodes is writing each |
| `Runs.Block` | writer.go:137-151 | a block is its start, its children and its end |
| `Runs.StepShape` | node.go:115-149 | between calls every node below the innermost is opened, and the innermost has children if it is |
| `Runs.ClosedAfterAll` | writer.go:387-398 | a run that ends with EndAll leaves no node open |
| `Structured.StylesAgree` | elem.go:90-137 | an element given with attributes and content, and its flattened calls, wherever they are allowed, leave the same open nodes; the bytes are equal if and only if the slice keeps its slots, which the element, its index and the capacity decide |
| `Structured.DirectSteps` | elem.go:33-61 | the flattened calls succeed, open the innermost node and attach the whole tree with all its end tags |
| `Structured.StartComplete` | node.go:151-159 | no end tag is lost if and only if, at every capacity where the slice grows, the node that makes it grow is not the first item of an element that is not closed in full |
| `Structured.FirstExists` | writer.go:447-457 | below the height of the content there is always a first node, and above it none, so finitely many capacities decide |
| `Structured.CutShortens` | node.go:151-159 | a lost end tag makes the text of a tree strictly shorter than it should be, and without one it is as it should be |
| `Structured.EnoughSlots` | writer.go:447-462 | a slice that already covers the height of a node loses no end tag |
| `Structured.ChainComplete` | writer.go:12-15 | a chain of elements nested by content keeps all its end tags if and only if it fits the slots there are |
| `Nesting.RunLegal` | writer.go:464-484 | in every reachable state of an enforcing writer each open node is allowed inside the one below it |
| `Nesting.LegalLanguage` | writer.go:464-484 | the stacks that this leaves: a Doc only at the bottom, at most three nodes that are not elements, comments, CDATA sections and attribute lists only on top |
| `Nesting.AllowedIff` | writer.go:464-484 | the kinds allowed inside each kind, as the table of parents has them |
| `Nesting.EndToDepthScope` | writer.go:400-429 | for a depth that was read before, a successful EndToDepth leaves the nodes up to it unchanged and gives the last of them one more child, of the kind asked for, whose last descendants are exactly the nodes that were open above it, in order |
| `Nesting.CloseDownTree` | writer.go:388-398 | nodes are finished innermost first, each becoming the last child of the one below it |
| `Nesting.BlockDepth` | writer.go:137-160 | writing any list of nodes, or a block, leaves the depth as it was |
| `Namespaces.DeclaredOnce` | elem.go:74-109 | when an element's tag is closed its declarations are exactly one for each prefix that came with a URI, with that URI |
| `Namespaces.TagAcceptedIff` | elem.go:63-97 | an element is accepted with its attributes if and only if the names are and no two of them, the element included, give a prefix different URIs |
| `Namespaces.AttrAcceptedIff` | attr.go:75-107 | one more attribute is accepted if and only if its name is and it agrees with the element and all attributes before it; if it disagrees it is refused and changes nothing |
| `Namespaces.AddAccounted` | attr.go:75-98 | an accepted attribute keeps declarations printed and to come at one for each prefix, and earlier URIs |
| `Declarations.RunOnce` | attr.go:75-98 | over every run without hand-written declarations no element declares a prefix twice, and a completed start tag has declared exactly the recorded namespaces |
| `Indented.RunBoth` | indenter.go:58-124 | the same calls with and without an indenter build the same document and hold the same nodes, states and child counts; the plain output is the text of the document, and the indented output holds the same parts with line breaks between them, each the new line string and as many units as its level |
| `Indented.LaidLeveled` | indenter.go:76-117 | in every partial document each line break is as deep as there are nodes of an indenting kind open around what follows, so a start tag and its end tag on lines of their own are indented equally |
| `Indented.LineInOutput` | indenter.go:104-121 | in the output a line break is the new line string and exactly one unit for each node of an indenting kind that is open, and the tag, declaration or comment it belongs to follows |
| `Pretty.LaidIsPretty` | indenter.go:58-124 | a finished document without mixed content is laid out with every node on a line of its own, one unit deeper than the node around it, and end tags below their start tags; a node without children or with content within the line stays in one line |
| `Pretty.LaidDocIsPretty` | indenter.go:58-124 | the same inside a Doc, which ends with a new line |
| `Pretty.WritePretty` | indenter.go:58-124 | what an indenting writer has printed after any error-free run that makes such a document |
| `Indented.BreaksKeepAwayIff` | indenter.go:104-121 | in every partial document line breaks keep away from text, CDATA, PI and attributes if and only if no node went on, after content given in advance that ends in one of those, with something that starts a line |
| `Ahead.BreaksKeepAway` | indenter.go:104-121 | in every run in which no content given to an element in advance ends in text or CDATA, after every call, they keep away from them, apart from the one before the end of a Doc |
| `Indented.ContentBreaks` | node.go:145-147 | a run of two calls that puts a line break right after a text |
| `ReaderProofs.DelimitedReads` | nodes.go:120-138 | scanning to the first terminator recovers a body if and only if no terminator begins inside it |
| `ReaderProofs.CommentEndsFirst` | nodes.go:60-88 | an accepted comment in one piece ends at its own terminator, also when it ends in a hyphen |
| `ReaderProofs.CDataEndsFirst` | nodes.go:146-171 | an accepted CDATA section in one piece ends at its own terminator, also when it ends in brackets |
| `ReaderProofs.PIEndsFirst` | nodes.go:360-392 | an accepted processing instruction ends at its own terminator, with or without a target |
| `ReaderProofs.EndsFirstIff` | nodes.go:120-138 | a terminator that cannot overlap itself comes first if and only if the body does not hold it |
| `ReaderProofs.PiecesEndFirst` | nodes.go:60-88 | a comment, a CDATA section or a PI of any pieces ends at its own terminator if and only if the joined body does not hold it |
| `ReaderProofs.CommentReadsIff` | nodes.go:33-88 | a comment is read as a whole if and only if production [15] allows it: no two hyphens in a row and none at the end |
| `ReaderProofs.CDataReadsIff` | nodes.go:120-171 | a CDATA section is read as a whole if and only if it does not hold its end |
| `ReaderProofs.PIReadsIff` | nodes.go:360-392 | a processing instruction with an accepted target is read as a whole if and only if it is accepted and its target is not empty |
| `ReaderProofs.UnnamedPI` | nodes.go:366-381 | without a target it is accepted whenever its content does not hold its end, and no reader takes it |
| `ReaderProofs.SectionIsTextIff` | nodes.go:33-88 | what is printed around a body is UTF-8 made of Chars if and only if the body is |
| `ReaderProofs.AcceptedCommentIff` | nodes.go:60-76 | an accepted one-piece comment meets production [15] if and only if it does not end in a hyphen and is UTF-8 |
| `ReaderProofs.AcceptedCDataIff` | nodes.go:146-160 | an accepted one-piece CDATA section can be read if and only if it is UTF-8 |
| `ReaderProofs.HyphenComment` | nodes.go:60-76 | a comment that is accepted and cannot be read |
| `ReaderProofs.TwoPiecesCanEndEarly` | nodes.go:60-88 | two accepted pieces that make a comment end early |
| `ReaderProofs.ReadText` | nodes.go:33-52 | reading printed text adds its sanitised form to the text before it |
| `ReaderProofs.AttsRead` | elem.go:74-109 | reading the accepted attributes of a tag gives their names and sanitised values in order if all have names, and otherwise the reader stops |
| `ReaderProofs.StartTagReadsIff` | elem.go:63-97 | the tag of a named element is read as a whole if and only if every attribute has a name and no two have the same; otherwise the reader stops |
| `ReaderProofs.RefusedAttributes` | printer.go:249-265 | an attribute without a name, and two with the same, are accepted and stop the reader |
| `TreeReads.ReadTree` | elem.go:63-147 | the state of the reader after the text of any tree whose markup is well-formed, lost end tags included |
| `TreeReads.ContentReadsIff` | node.go:151-159 | such a forest is content if and only if no end tag is lost, and then the reader gets the forest |
| `TreeReads.RenderIsTextIff` | printer.go:129-159 | what is printed for a forest is UTF-8 made of Chars (production [2]) if and only if what is printed as it is, is |
| `Exact.ReadBackIff` | elem.go:63-147 | print, then parse: the reader returns the forest that was printed, up to U+FFFD replacement and merging of adjacent text, if and only if every leaf, tag and section meets its condition |
| `Returns.FoldRender` | printer.go:129-159 | line-end handling (section 2.11) of the text of a tree is line-end handling inside the tree, also across adjacent text |
| `Returns.LinesReadBackIff` | elem.go:63-147 | with line ends handled first, the reader returns the forest with its line ends handled, under the same condition |
| `Returns.NodesSurviveIff` | printer.go:129-159 | nothing is changed by that if and only if there is no carriage return outside attribute values |
| `DocReads.FragmentReadsIff` | elem.go:63-147 | as a document entity without an XML declaration: a reader gets the forest back if and only if it is legible and has one root |
| `DocReads.DocumentReadsIff` | nodes.go:285-342 | the same with one: if and only if the declaration is allowed, its encoding is absent or UTF-8, the content is legible and there is one root |
| `Enforced.RunSound` | writer.go:464-484 | every tree that an enforcing writer builds has allowed nesting, accepted names and accepted leaves |
| `RoundTrip.DeclOkIff` | nodes.go:285-342 | the declaration that any writer prints is allowed if and only if the version is not left out and is a version number, and the encoding is left out or is UTF-8 |
| `XmlDecl.DeclarationSays` | nodes.go:285-342 | what starting a Doc prints is read as a declaration: the version that is forced, else configured, else 1.0; the encoding that is forced, else configured; standalone yes, no or left out as given; each once, in the order of production [23], and then the line end |
| `RoundTrip.RunReads` | elem.go:63-147 | the forest of every error-free enforcing run is read back from its text if and only if it is legible, and as a document entity if and only if it also has one root |
| `RoundTrip.RunReadsDoc` | nodes.go:285-342 | the same for a run that starts a document node, if and only if its declaration is allowed as well |
| `RoundTrip.WriteDocument` | writer.go:387-398 | what a reader takes from the bytes in a writer's output is the document that the calls describe, exactly under those conditions |
| `Sha256.PadFits` | tester/ctester/sha256.c:114-145 | the padded message fills whole blocks |
| `Sha256.GapIsLeast` | tester/ctester/sha256.c:120-132 | with fewer zero bytes it would not (section 5.1.1 of FIPS 180-4) |
| `Sha256.LengthWraps` | tester/ctester/sha256.c:134-143 | the length field is the length modulo 2^64, wherever the counter has wrapped |
| `Sha256Constants.RoundConstants` | tester/ctester/sha256.c:33 | each round constant is the first 32 bits of the fractional part of the cube root of its prime |
| `Sha256Constants.InitialValue` | tester/ctester/sha256.c:85-97 | the initial state is that of the square roots of the first eight primes |
| `Sha256.Context.Schedule` | tester/ctester/sha256.c:48-51 | the array holds the message schedule of section 6.2.2 |
| `Sha256.Context.Transform` | tester/ctester/sha256.c:44-83 | the state becomes the compression of the old state and the block |
| `Sha256.Context.Push` | tester/ctester/sha256.c:104-110 | one more byte: buffer, counter and state stay those of the message so far |
| `Sha256.Context.Update` | tester/ctester/sha256.c:99-112 | a piece of fewer than 2^32 bytes joins the message |
| `Sha256.Context.Finish` | tester/ctester/sha256.c:114-145 | after the padding, in one block or two, the state is the hash of the padded message |
| `Sha256.Context.Final` | tester/ctester/sha256.c:114-158 | the result is the digest of everything given so far |
| `Sha256.HashPieces` | tester/ctester/sha256.c:85-158 | every split of a message into calls gives the digest of the whole |
| `Sha256Example.AbcDigest` | tester/ctester/sha256.c:44-158 | the digest of "abc" is the one of appendix B.1 of FIPS 180-2 |
| `GrowBuffer.SmearStep` | tester/ctester/string.c:47 | one shift and or doubles the stretch of bits that each bit reports on |
| `GrowBuffer.SmearedOnes` | tester/ctester/string.c:47 | 32 bits are enough to fill a number below 2^32 from its highest bit down |
| `GrowBuffer.RoundUp` | tester/ctester/string.c:46-48 | the result is no less than the argument, and up to 2^32 it is a power of two below twice the argument |
| `GrowBuffer.Buffer.Grow` | tester/ctester/string.c:44-50 | the new capacity is at least twice the old one and below four times the length needed |
| `GrowBuffer.Buffer.Append` | tester/ctester/string.c:42-54 | the contents grow by the argument and end with a NUL inside the capacity |
| `GrowBuffer.Buffer.AppendAll` | tester/ctester/string.c:42-54 | over any appends the contents are the concatenation, and all reallocations together copy less than four times the greatest length |
| `GrowBuffer.Buffer.Clear` | tester/ctester/testbuilder.c:105-110 | the contents become empty and the room is kept |
| `ContentModel.Collector.ElementDeclChild` | tester/ctester/testbuilder.c:560-611 | a printable model is appended as its text, and anything else raises the error |
| `ContentModel.Collector.ElementDecl` | tester/ctester/testbuilder.c:613-659 | the command's content is the text of the declaration, and the buffer is left empty |
| `ContentParser.ReadSpec` | tester/ctester/testbuilder.c:613-659 | a parsed content specification is one that productions [46] to [51] express |
| `ContentParser.ModelReadsIff` | tester/ctester/testbuilder.c:560-659 | parsing a printed model gives the model with its quantifiers if and only if those productions can express it |
| `AttrSplitter.SplitName` | tester/ctester/testbuilder.c:200-208 | a name is split at its first colon |
| `AttrSplitter.Splitter.Split` | tester/ctester/testbuilder.c:221-250 | the two arrays hold the other declarations and the remaining attributes, in order, within their bounds and NULL-terminated |
| `AttrSplitter.Splitter.ClaimFor` | tester/ctester/testbuilder.c:268-274 | the first unclaimed declaration of the prefix is claimed, and only that entry is cleared |
| `AttrSplitter.Splitter.ElemStart` | tester/ctester/testbuilder.c:195-295 | the commands written are the script of the specification, in any state of the arrays |
| `AttrRebuild.ReplayAttr` | tester/gotester/xwrunner.go:127-140 | the attribute takes the last parameter of each kind; an unknown parameter is an error |
| `AttrRebuild.ReplayElem` | tester/gotester/xwrunner.go:367-380 | the element takes the last parameter of each kind; an unknown parameter is an error |
| `AttrRebuild.ScriptKnown` | tester/ctester/testbuilder.c:195-295 | every command of a script has only parameters that the handlers know |
| `AttrRebuild.RebuildIff` | tester/ctester/testbuilder.c:195-295 | the replayed script prints the same attributes and declarations, as a multiset, if and only if no prefix that is used is declared with the empty URI |
| `AttrRebuild.ReplayPrints` | tester/gotester/xwrunner.go:127-140 | the same through the writer's calls, wherever an element is allowed: start, one call for each attribute, end |
| `DeclParser.Dispatch` | tester/ctester/xml.c:80-121 | one turn of the state machine keeps what is still to be found, or finds one attribute, or stops |
| `DeclParser.Parse` | tester/ctester/xml.c:61-130 | on any input the attributes found fill the slots in order, at most two for each equals sign, and the rest stays NULL |
| `DeclParser.DeclarationParses` | nodes.go:285-342 | given what was printed after "<?xml", the parser reports the names and escaped values in order and stops at the closing question mark |
| `DeclParser.DocParses` | nodes.go:285-342 | the same for the declarations that a Doc can have |
| `XmlDecl.ParserSays` | nodes.go:285-342 | the test tools' parser finds those too |

## Left out

* Buffering, `Flush`, `EndAllFlush`, encoders and sticky write errors: the output is a growing byte sequence.
* `Next` as a call of its own, `Raw`, and attributes outside a start tag: they are modelled as calls that leave
  the tree, after which nothing more is said about the bytes.
* What follows a failed call: the state is kept consistent, but the document is given up.
* Error texts, `ErrCollector`, the names of kinds and states, the conversions of `Attr`.
* `Wrap` of indenters other than the standard one, whose `Wrap` returns its argument; other indenters.
* That `Elem.open` and `DTDAttList.opened` drop the lists they have written: nothing reads them again.
* Kind flags are sets of kinds, and lower-casing a target considers ASCII letters only.
* The growth of Go slices is a parameter; every theorem holds for every choice of it.
* The name table is the predicate it is generated from.
* Full well-formedness: a single root, distinct attributes and the validity of DTD content are not enforced by
  the code. The round trip is stated for documents without a DTD; document type declarations are read back on their own,
  with content specifications and attribute types taken as strings and references in entity values not looked into.
* In C: allocation failure, lengths near the limits of their types, strings with a NUL inside them, and that
  `xml_elem_start` cuts the name it was given at its colon. Commands are passed as values, not as XML.
* `hash.c` repeats `sha256.c`; the programs around expat, libxml2 and the shell are plumbing.
- Check.CheckChars: does not say that the string is UTF-8, because a bad byte passes as U+FFFD.
- Utf8.DecodeRune: the decoder is Go's, so one bad byte gives U+FFFD of width 1; nothing is said of other decoders.
- RoundTrip.RunReads: is about forests without a DTD or an XML declaration; RoundTrip.RunReadsDoc is about one Doc without a DTD, from a writer whose line end is white space.
- AttrRebuild.ReplayAttr: does not model `ws="strip"`, which scripts made from attributes never set.
- GrowBuffer.RoundUp: says nothing of powers of two above 2^32, where the shifts do not reach.
