# document_generator — a Dafny model of its generators

`document_generator` fills Office templates. The author writes `{{field}}`
tokens into a Word document, an Excel workbook or a PowerPoint deck. A
generator then replaces each token by `str(value)` for a mapping of field
names to values, and lists the field names a template uses.

The PowerPoint side has a second, richer engine: slide composition.
- Each template slide may declare, as JSON in its speaker notes, a
  `slide_type`, a description and typed placeholders.
- A caller asks for a sequence of slides by type, each with its own fields.
- The engine catalogues the template by type and picks the best-matching
  slide for each request. It copies the template file, empties it, and
  rebuilds every requested slide: on the matching layout, with the
  template slide's own shapes and placeholder text, then filled field by
  field according to each placeholder's declared type (text, list or table).

The model covers these modules:
- **strings, values, shapes.** The Python and python-pptx semantics the
  generators rely on:
  - `in`, `str.replace`, `strip`, `split`, `join`, string order, `str()`;
  - text frames, paragraphs and runs; `clear()`, `paragraph.text = …`,
    `text_frame.text = …`.
- **fieldnames.** `re.findall(r'\{\{([^}]+)\}\}', …)`, the set of names
  found, and `sorted`.
- **metadata.** Reading the notes: strip, typographic quotes straightened,
  JSON decode, the AttributeError of a notes slide without a notes text
  frame, and the "declares a slide type" test.
- **catalog, selection.** The slide-type map, `get_template_slide_types`,
  the best-candidate choice and the build plan.
- **cloning.** Layout resolution, which template shapes are copied, the
  text-frame copy, and placeholder text carried over.
- **populate.** `_populate_slide` and its text, list and table fields.
- **composer.** `generate_from_slides` end to end, the advanced engine's
  `get_template_fields`, and its legacy `generate`.
- **steps, search.** Generic "stop at the first exception" and "first match,
  then break" loops.
- **substitution, word, excel, pptbasic.** The three simple generators and
  their field lists.

Design choices:
- Objects the source mutates are classes: `Presentation`, `OutputFile`,
  `LiveSlide`, `WordDocument`, `Workbook`.
- Each loop is a method proved against a specification function.
- Exceptions are `Result`/`Outcome` values carrying the Python exception
  that would escape.
- `json.loads` is a parameter (`decode`). File loading and saving are the
  state of an `OutputFile` or the object handed in.

Paths below are relative to the repository root.

## Model

| member | source | states |
|---|---|---|
| Strings.Token | document_generator/generators/powerpoint_advanced_generator.py:392 | the placeholder of a field is `{{` + name + `}}`, four characters longer than the name |
| Strings.TokenInToken | document_generator/generators/powerpoint_advanced_generator.py:392 | for names without braces, one field's token occurs inside another's only when the two names are equal |
| Strings.StripEmpty | document_generator/generators/powerpoint_advanced_generator.py:25-27 | stripped notes are empty exactly when every character is white space |
| Values.Iterate | document_generator/generators/powerpoint_advanced_generator.py:455 | a list yields its items, a string yields item k as its k-th character for every k, and any other value cannot be iterated (TypeError) |
| FieldNames.RunLength | document_generator/generators/powerpoint_advanced_generator.py:529 | the greedy `[^}]+` run holds no `}` and stops at a `}` or at the end of the text |
| FieldNames.MatchAtIsToken | document_generator/generators/powerpoint_advanced_generator.py:529 | a match at the start of a text captures a non-empty name without `}`, and the text starts with that name's token |
| FieldNames.FoundNamesWellFormed | document_generator/generators/powerpoint_advanced_generator.py:534 | every name `re.findall` returns is non-empty, free of `}`, and its token occurs in the text |
| FieldNames.FindFieldsSkipsPlainText | document_generator/generators/powerpoint_advanced_generator.py:534 | text without `{` contributes no name, and scanning continues after it |
| FieldNames.FindFieldsOfToken | document_generator/generators/powerpoint_advanced_generator.py:534 | a well-formed token at the front of a text is found, and scanning resumes right after it |
| FieldNames.FindFieldsOfRender | document_generator/generators/powerpoint_advanced_generator.py:529-535 | round trip: tokens of well-formed names placed between brace-free literal text are found again, all of them, in order |
| FieldNames.NamesInAppend | document_generator/generators/powerpoint_advanced_generator.py:531-542 | the names accumulated over two runs of texts are the union of the names of each run |
| FieldNames.NamesInWellFormed | document_generator/generators/powerpoint_advanced_generator.py:528-542 | every accumulated name is well formed and its token occurs in one of the texts searched |
| FieldNames.Minimum | document_generator/generators/powerpoint_advanced_generator.py:544 | the chosen name is in the set and precedes every other name in Python's string order |
| FieldNames.SortNames | document_generator/generators/powerpoint_advanced_generator.py:544 | `sorted(list(names))` is strictly increasing and holds exactly the set's names, each once |
| FieldNames.TextNames | document_generator/generators/powerpoint_advanced_generator.py:531-542 | the `fields.update(matches)` loop ends with exactly the names found in the texts |
| FieldNames.SortedFields | document_generator/generators/powerpoint_advanced_generator.py:544 | the returned list is strictly sorted and holds exactly the names found; every name is well formed and its token occurs in some text searched |
| Shapes.Clear | document_generator/generators/powerpoint_advanced_generator.py:423 | `clear()` leaves one paragraph, with no runs and an empty text, that keeps the first paragraph's level and alignment |
| Shapes.WithText | document_generator/generators/powerpoint_advanced_generator.py:425 | after `paragraph.text = t` the paragraph reads `t` and keeps its level and alignment |
| Shapes.Rebuilt | document_generator/generators/powerpoint_advanced_generator.py:423-425 | clear-then-set leaves a frame of one paragraph reading exactly the new text |
| Shapes.WithFrameText | document_generator/generators/powerpoint_advanced_generator.py:491 | after `cell.text = t` the frame reads `t`, every paragraph at level 0 with no alignment set |
| Shapes.LiveSlide.constructor | document_generator/generators/powerpoint_advanced_generator.py:198 | a new slide starts with the given shapes (its layout's placeholders) |
| Metadata.StraightQuote | document_generator/generators/powerpoint_advanced_generator.py:31-32 | a straightened character is never one of the four typographic quotes, and is white space exactly when the original is |
| Metadata.NormalizeQuotesIsMap | document_generator/generators/powerpoint_advanced_generator.py:31-32 | the four replacements map the text character by character: same length, typographic quotes become straight ones, all other characters stay, and none of the four remains |
| Metadata.StripMapQuotes | document_generator/generators/powerpoint_advanced_generator.py:25-32 | stripping and straightening quotes commute |
| Metadata.ParseSlideMetadataSpec | document_generator/generators/powerpoint_advanced_generator.py:16-38 | reading raises exactly when the notes slide has no notes text frame (`notes_text_frame` is None, so `.text` raises AttributeError); a missing notes slide or blank notes give None without reaching the decoder; otherwise the decoder gets non-empty text with no surrounding white space and no typographic quotes, and its answer (None for a decode error) is the result |
| Metadata.QuoteVariantsParseAlike | document_generator/generators/powerpoint_advanced_generator.py:29-35 | notes that differ only in typographic versus straight quotes read as the same metadata, whatever the decoder |
| Metadata.DeclaresTypeAsWritten | document_generator/generators/powerpoint_advanced_generator.py:99 | `metadata and "slide_type" in metadata` as written: false for a falsy value; raises exactly for a truthy int or bool |
| Metadata.SlideTypeAsWritten | document_generator/generators/powerpoint_advanced_generator.py:100 | `metadata["slide_type"]` succeeds exactly on an object that has the key |
| Metadata.PlainNotesReachDecoder | document_generator/generators/powerpoint_advanced_generator.py:25-36 | the notes `1` reach the decoder unchanged, so the decoder's value is the metadata |
| Metadata.NonObjectMetadataAbortsCatalog | document_generator/generators/powerpoint_advanced_generator.py:97-100 | metadata decoding to `1`, `true`, `["slide_type"]` or `"slide_type"` makes cataloguing raise |
| Metadata.DeclaredType | document_generator/generators/powerpoint_advanced_generator.py:99-100 | corrected: a slide declares a type exactly when its metadata is an object with a `slide_type` key; the declaration carries that object and that type (the code as written raises TypeError on notes such as `1`; see Findings) |
| Metadata.DeclaredTypeAgreesWhereNoCrash | document_generator/generators/powerpoint_advanced_generator.py:99-100 | wherever the written test does not raise, the corrected test makes the same decision and gives the same type |
| Catalog.ReadableMetadata | document_generator/generators/powerpoint_advanced_generator.py:97-98 | the notes of the template slides read in slide order up to the first slide whose notes raise: each value is that slide's parsed notes, and it falls short of the slide count exactly when some slide's notes raise, the next slide's being the first that do |
| Catalog.ReadableMetadataUnique | document_generator/generators/powerpoint_advanced_generator.py:97-98 | any sequence of parsed notes that runs up to the first slide whose notes raise, or to the end, is the metadata read |
| Catalog.ReadMetadata | document_generator/generators/powerpoint_advanced_generator.py:97-98 | the reading loop reads the slides' notes in order and stops at the first that raises, giving the metadata read |
| Catalog.AddEntry | document_generator/generators/powerpoint_advanced_generator.py:101-107 | an entry is appended to its type's list, which is created empty on first use (the new type goes at the end of the key order); other lists are untouched |
| Catalog.CatalogFailsExactly | document_generator/generators/powerpoint_advanced_generator.py:96-107 | corrected: on the corrected declarations, building the map raises exactly when some slide declares a list or an object as its type, and then raises TypeError (as written, non-object metadata also raises TypeError; see Findings) |
| Catalog.CatalogValid | document_generator/generators/powerpoint_advanced_generator.py:96-107 | a built map is sound (each entry is a declaring slide, with its metadata, filed under its own type), complete (every declaring slide is filed), ordered by slide index within each type, and its key order lists each type once |
| Catalog.BuildCatalog | document_generator/generators/powerpoint_advanced_generator.py:96-107 | corrected: the map-building loop gives the catalog of all slides' corrected declarations |
| Catalog.InfoOf | document_generator/generators/powerpoint_advanced_generator.py:54-59 | a listed slide gives its index and type, its description (default `""`) and its placeholders (default `{}`) |
| Catalog.SlideTypesStep | document_generator/generators/powerpoint_advanced_generator.py:51-60 | a declaring slide appends its info to the list; any other slide leaves the list unchanged |
| Catalog.SlideTypesSound | document_generator/generators/powerpoint_advanced_generator.py:51-62 | every listed info describes a declaring slide, with that slide's type, description and placeholders |
| Catalog.SlideTypesIncreasing | document_generator/generators/powerpoint_advanced_generator.py:51-62 | the list follows slide order strictly |
| Catalog.SlideTypesComplete | document_generator/generators/powerpoint_advanced_generator.py:51-62 | every declaring slide is listed |
| Catalog.SlideTypes | document_generator/generators/powerpoint_advanced_generator.py:40-62 | corrected: `get_template_slide_types`: AttributeError when some slide's notes have no text frame; otherwise the listing loop gives the list of the slides whose corrected declaration holds (as written, notes such as `1` raise TypeError and notes such as `["slide_type"]` raise AttributeError at `.get`) |
| Catalog.SlideTypesMatchCatalog | document_generator/generators/powerpoint_advanced_generator.py:51-107 | when the map builds, the listing and the map describe the same slides under the same types, both ways |
| Selection.DeclaredNames | document_generator/generators/powerpoint_advanced_generator.py:134 | no `placeholders` gives the empty set; reading the keys fails (AttributeError) exactly when `placeholders` is not an object |
| Selection.ScanUpTo | document_generator/generators/powerpoint_advanced_generator.py:130-143 | the best match found so far is one of the candidates already scanned |
| Selection.Choose | document_generator/generators/powerpoint_advanced_generator.py:125-145 | the chosen candidate is one of the candidates |
| Selection.ScanFailsOnUnreadable | document_generator/generators/powerpoint_advanced_generator.py:133-134 | the scan raises exactly when some candidate's placeholders cannot be read, and then raises AttributeError |
| Selection.ScanStepFails | document_generator/generators/powerpoint_advanced_generator.py:133-134 | one more candidate makes the scan raise exactly when it had raised already or this candidate's placeholders cannot be read, and the first exception is the one that escapes |
| Selection.ScanStepKeeps | document_generator/generators/powerpoint_advanced_generator.py:138-143 | a readable candidate replaces the best match and score exactly when its overlap is strictly greater than the best score so far |
| Selection.ScanFindsEarliestBest | document_generator/generators/powerpoint_advanced_generator.py:130-143 | over readable candidates, the scan ends on a candidate with the greatest overlap that also beats every earlier candidate strictly, and holds its score |
| Selection.ChooseIsEarliestBest | document_generator/generators/powerpoint_advanced_generator.py:122-145 | a lone candidate is taken without reading its metadata; among several, the choice succeeds exactly when all are readable and is the earliest candidate with the greatest overlap |
| Selection.SelectCandidate | document_generator/generators/powerpoint_advanced_generator.py:125-145 | the `best_score`/`best_match` loop returns the choice or the error it raises |
| Selection.PlanFollowsRequests | document_generator/generators/powerpoint_advanced_generator.py:110-151 | planning succeeds exactly when every request does; the plan then has one entry per request, in request order |
| Selection.PlanStopsAtFirstFailure | document_generator/generators/powerpoint_advanced_generator.py:111-120 | a failed plan raises the error of the first request that fails |
| Selection.PlanOneSpec | document_generator/generators/powerpoint_advanced_generator.py:112-151 | an unknown hashable type raises ValueError naming it and listing the catalogued types in order; a planned entry is a slide filed under the requested type, with its metadata and the request's fields |
| Selection.PlannedSlideDeclaresType | document_generator/generators/powerpoint_advanced_generator.py:96-151 | a planned entry names a template slide that declares the requested type, with that slide's metadata |
| Selection.Plan | document_generator/generators/powerpoint_advanced_generator.py:110-151 | the `slides_to_build` loop gives the plan, or the first error raised |
| Search.FirstWhere | document_generator/generators/powerpoint_advanced_generator.py:176-179 | the index found matches and no earlier element does; None exactly when no element matches |
| Steps.ApplyAll | document_generator/generators/powerpoint_advanced_generator.py:169-207 | a loop that gets through yields one result per element |
| Steps.ApplyAllSucceeds | document_generator/generators/powerpoint_advanced_generator.py:169-207 | the loop gets through exactly when no element raises |
| Steps.ApplyAllResults | document_generator/generators/powerpoint_advanced_generator.py:169-207 | when it gets through, result k is element k's result |
| Steps.ApplyAllFirstFailure | document_generator/generators/powerpoint_advanced_generator.py:169-207 | the exception the loop raises is that of the first element that raises |
| Cloning.ResolvedLayout | document_generator/generators/powerpoint_advanced_generator.py:173-195 | the first output layout with the template slide's layout name; if none, the layout at the same position when in range, else the first; ValueError exactly when the output has no layout |
| Cloning.ResolveLayout | document_generator/generators/powerpoint_advanced_generator.py:173-195 | the name search with `break` and its two fallbacks give the resolved layout |
| Cloning.CopyParagraph | document_generator/generators/powerpoint_advanced_generator.py:365-371 | a copied paragraph has the source's text and level, and its alignment when set |
| Cloning.CopyAsWrittenAddsLeadingLine | document_generator/generators/powerpoint_advanced_generator.py:362-367 | as written, the copy has one paragraph more than the source, the first one empty, and its text is the source's text after a line feed |
| Cloning.CopiedTextBoxGainsBlankFirstLine | document_generator/generators/powerpoint_advanced_generator.py:319-330 | a text box reading `Hello` is copied as one reading `\nHello` |
| Cloning.CopiedParagraphs | document_generator/generators/powerpoint_advanced_generator.py:364-371 | the copied paragraphs have the sources' texts and levels, and their alignments when set |
| Cloning.CopyTextFrameContent | document_generator/generators/powerpoint_advanced_generator.py:360-371 | intended copy: exactly the source's paragraphs (one empty one for an empty source), with the same texts, levels and set alignments, so the frame reads as the source |
| Cloning.CopyOf | document_generator/generators/powerpoint_advanced_generator.py:283-358 | corrected: a shape is copied exactly when it is not a placeholder and is a picture with an image, a text box, or an auto shape with visible text; the copy keeps the kind and geometry, is not a placeholder, not a graphic frame and has no table; a picture keeps its image, any other copy reads as the original's text (as written it reads as a line feed followed by that text; see Findings); an auto shape's first paragraph without an alignment ends centred, as a new auto shape's paragraph is |
| Cloning.Copies | document_generator/generators/powerpoint_advanced_generator.py:283-358 | corrected: the copies are never placeholders, graphic frames or tables, and never outnumber the template shapes |
| Cloning.CopiesComplete | document_generator/generators/powerpoint_advanced_generator.py:283-358 | every template shape that qualifies has its copy among the copies |
| Cloning.CopySlideShapes | document_generator/generators/powerpoint_advanced_generator.py:236-358 | `_copy_slide_shapes` appends the copies after the slide's existing shapes |
| Cloning.CopyOnePlaceholder | document_generator/generators/powerpoint_advanced_generator.py:218-232 | one template placeholder leaves the same number of shapes on the new slide |
| Cloning.CopyOnePlaceholderSpec | document_generator/generators/powerpoint_advanced_generator.py:218-232 | corrected: only the text frame of the first new-slide placeholder with the same index changes, and it then reads as the template placeholder's text (as written, a line feed followed by that text; see Findings) |
| Cloning.PlaceholdersCopiedTouchOnlyPlaceholderText | document_generator/generators/powerpoint_advanced_generator.py:213-234 | copying placeholder content changes nothing but the text frames of the new slide's placeholders |
| Cloning.CopyPlaceholderContent | document_generator/generators/powerpoint_advanced_generator.py:213-234 | the nested loop with `break` gives each template placeholder's step, in order |
| Populate.ReplacedFrame | document_generator/generators/powerpoint_advanced_generator.py:410-425 | a frame whose text holds the token becomes one paragraph reading its old text with every occurrence replaced; any other frame is unchanged |
| Populate.ReplacedTable | document_generator/generators/powerpoint_advanced_generator.py:427-438 | replacement inside a table keeps its rows and cells |
| Populate.ReplacedShape | document_generator/generators/powerpoint_advanced_generator.py:409-438 | replacement changes a shape's text frame and table cells only, and never adds or removes either |
| Populate.ReplacedShapesSpec | document_generator/generators/powerpoint_advanced_generator.py:407-438 | each frame and each cell holding the token is rebuilt to read its old text with the token replaced; other frames and cells, and everything but text, stay |
| Populate.ReplaceAbsentTokenChangesNothing | document_generator/generators/powerpoint_advanced_generator.py:416-434 | a slide where no frame or cell mentions the token is left exactly as it was |
| Populate.TokenAloneBecomesValue | document_generator/generators/powerpoint_advanced_generator.py:416-425 | a frame reading exactly `{{name}}` afterwards reads as the value |
| Populate.OtherFieldTokenUntouched | document_generator/generators/powerpoint_advanced_generator.py:392-416 | filling one field never changes a frame that reads as another field's token (brace-free names) |
| Populate.ReplaceInTable | document_generator/generators/powerpoint_advanced_generator.py:427-438 | the row and cell loops give the replaced table |
| Populate.ReplaceTextInSlide | document_generator/generators/powerpoint_advanced_generator.py:407-438 | `_replace_text_in_slide` raises ValueError exactly when the slide holds a graphic frame without a table (`hasattr(shape, "table")` lets python-pptx's ValueError escape); otherwise it leaves the slide's shapes replaced one by one |
| Populate.ListFrame | document_generator/generators/powerpoint_advanced_generator.py:452-462 | a list frame has one level-0 paragraph per item reading `str(item)`, or one empty paragraph when there are no items |
| Populate.ListFilledSpec | document_generator/generators/powerpoint_advanced_generator.py:440-464 | the list field raises TypeError exactly when some shape holds the token and the value cannot be iterated; otherwise only the first such shape changes, and only its text, to the list |
| Populate.PopulateListField | document_generator/generators/powerpoint_advanced_generator.py:440-464 | the method leaves the slide as the list field does, or reports the error it raises |
| Populate.ClearedCell | document_generator/generators/powerpoint_advanced_generator.py:491 | a cleared cell reads as its old text with every occurrence of the token removed |
| Populate.TableData | document_generator/generators/powerpoint_advanced_generator.py:494-498 | the rows the fill loop reads: the data's first items, as many as the table has rows, each iterated; TypeError exactly when the data or one of those items cannot be iterated |
| Populate.FilledTable | document_generator/generators/powerpoint_advanced_generator.py:487-498 | the filled table keeps its grid; each cell is either written from the data or cleared of the token |
| Populate.FilledTableCells | document_generator/generators/powerpoint_advanced_generator.py:487-498 | cells the data reaches read as `str` of the data; every other cell reads as its old text with the token removed |
| Populate.TableFilledSpec | document_generator/generators/powerpoint_advanced_generator.py:466-500 | falsy data, or no table holding the token, changes nothing unless a graphic frame without a table is on the slide; ValueError exactly when such a frame comes before every table the data would fill; the only other failure is TypeError on truthy data; otherwise only the first table holding the token changes, and it keeps its grid |
| Populate.TableHasToken | document_generator/generators/powerpoint_advanced_generator.py:478-485 | the nested search with early exit finds the token exactly when some cell holds it |
| Populate.ClearTable | document_generator/generators/powerpoint_advanced_generator.py:489-491 | the clearing pass keeps the grid and clears every cell |
| Populate.FillRow | document_generator/generators/powerpoint_advanced_generator.py:496-498 | cell c of a row is set to `str` of the c-th value; values past the row's last cell are ignored; other cells stay |
| Populate.FillTable | document_generator/generators/powerpoint_advanced_generator.py:487-498 | clearing then writing the data gives the filled table, or TypeError when the data cannot be read |
| Populate.PopulateTableField | document_generator/generators/powerpoint_advanced_generator.py:466-500 | the shape scan, which raises at a graphic frame without a table, leaves the slide as the table field does, or reports the error it raises |
| Populate.FieldType | document_generator/generators/powerpoint_advanced_generator.py:387-388 | an undescribed field is `"text"`; a described one has its `type` (default `"text"`); AttributeError exactly when the placeholders or the field's entry is not an object |
| Populate.UndescribedFieldIsText | document_generator/generators/powerpoint_advanced_generator.py:387-393 | a field the metadata does not describe is filled by token replacement, which raises ValueError when a graphic frame without a table is on the slide |
| Populate.OtherFieldTypesChangeNothing | document_generator/generators/powerpoint_advanced_generator.py:403-405 | an `image` field (a stub), or a type no branch handles, leaves the slide as it was |
| Populate.PopulateFieldKeepsLayout | document_generator/generators/powerpoint_advanced_generator.py:386-405 | one field keeps every shape, its kind, place, image and table grid; only text changes |
| Populate.ReplacedKeepsLayout | document_generator/generators/powerpoint_advanced_generator.py:407-438 | replacing a text field's token keeps every shape, its kind, place and image, and every table grid |
| Populate.ListFilledKeepsLayout | document_generator/generators/powerpoint_advanced_generator.py:440-464 | filling a list field keeps every shape, its kind, place and image, and every table grid |
| Populate.TableFilledKeepsLayout | document_generator/generators/powerpoint_advanced_generator.py:466-500 | filling a table field keeps every shape, its kind, place and image, and every table grid |
| Populate.PopulateKeepsLayout | document_generator/generators/powerpoint_advanced_generator.py:379-405 | populating a slide adds and removes no shape, row or cell; only text changes |
| Populate.PopulateSlide | document_generator/generators/powerpoint_advanced_generator.py:379-405 | `_populate_slide` applies every field in request order, or reports the first exception |
| Shapes.Presentation.constructor | document_generator/generators/powerpoint_advanced_generator.py:156 | an opened presentation holds the file's slides and layouts |
| Shapes.OutputFile.constructor | document_generator/generators/powerpoint_advanced_generator.py:155 | the output path holds the given deck, or none |
| Composer.DeleteAllSlides | document_generator/generators/powerpoint_advanced_generator.py:158-163 | the reverse deletion loop leaves no slide and keeps the layouts |
| Composer.PreparedPlanSpec | document_generator/generators/powerpoint_advanced_generator.py:95-151 | a prepared plan has one entry per request; entry k names a template slide that declares request k's type, with that slide's metadata and request k's fields |
| Composer.UnknownTypeFailsPreparation | document_generator/generators/powerpoint_advanced_generator.py:116-120 | a request for a hashable type that no template slide declares makes preparation raise |
| Composer.BuiltSlideSpec | document_generator/generators/powerpoint_advanced_generator.py:170-207 | a built slide has no notes and sits on an output layout; its shapes are that layout's placeholders followed by the copies of the template's shapes, changed only in their text |
| Composer.ComposedDeckSpec | document_generator/generators/powerpoint_advanced_generator.py:64-211 | the composed deck keeps the template's layouts and has one slide per request, in order; slide k is built from a template slide that declares request k's type, on an output layout, from that layout's placeholders and the slide's copied shapes |
| Composer.BuildSlide | document_generator/generators/powerpoint_advanced_generator.py:170-207 | one loop iteration appends the built slide, or leaves the slide list as it was and reports the exception |
| Composer.BuildAll | document_generator/generators/powerpoint_advanced_generator.py:168-207 | the building loop leaves exactly the built slides, or reports the first exception |
| Composer.GenerateFromSlides | document_generator/generators/powerpoint_advanced_generator.py:64-211 | a catalog or planning error, or notes without a text frame (AttributeError, raised after the slides before them are catalogued, so an earlier catalog error wins), leave the output path untouched; a build error leaves the unsaved copy of the template there; otherwise the composed deck is saved |
| Composer.ShapesNames | document_generator/generators/powerpoint_advanced_generator.py:532-542 | the names found on one slide, shape by shape, or ValueError exactly when one of its shapes is a graphic frame without a table |
| Composer.CollectNames | document_generator/generators/powerpoint_advanced_generator.py:527-542 | the slide and shape loops collect exactly the names found in every non-empty frame text and every cell text, or raise ValueError exactly when some slide holds a graphic frame without a table |
| Composer.TemplateFields | document_generator/generators/powerpoint_advanced_generator.py:522-544 | `get_template_fields` raises ValueError exactly when some slide holds a graphic frame without a table (line 537); otherwise it returns a strictly sorted list of exactly the names found, each well formed and present as a token in the template |
| Composer.PrePassLeavesNoOpenPair | document_generator/generators/powerpoint_advanced_generator.py:555 | after `{{` is replaced by `}}` everywhere, no `{{` is left |
| Composer.NoOpenPairNoToken | document_generator/generators/powerpoint_advanced_generator.py:558 | text without `{{` holds no field token |
| Composer.PrePassSlideHasNoOpenPair | document_generator/generators/powerpoint_advanced_generator.py:555 | after the pre-pass, no frame or cell of the slide holds `{{` |
| Composer.FieldsIgnoredWithoutOpenPair | document_generator/generators/powerpoint_advanced_generator.py:557-559 | on a slide without `{{`, replacing fields changes nothing |
| Composer.LegacyAsWrittenIgnoresFields | document_generator/generators/powerpoint_advanced_generator.py:554-559 | as written, `generate` gives the pre-pass result whatever the fields: no value is ever inserted |
| Composer.PrePassBreaksToken | document_generator/generators/powerpoint_advanced_generator.py:555 | `{{name}}` becomes `}}name}}`, which no longer holds the token |
| Composer.LegacySlideFrames | document_generator/generators/powerpoint_advanced_generator.py:557-559 | a shape's frame after the fields is its own frame with each field applied in turn |
| Composer.LoneTokenFilled | document_generator/generators/powerpoint_advanced_generator.py:557-559 | corrected `generate`: a frame reading `{{name}}` of field k reads as `str(value)` of field k, for distinct brace-free names and a value holding no later field's token |
| Composer.UntouchedBeforeOwnField | document_generator/generators/powerpoint_advanced_generator.py:557-559 | fields before field k leave a frame reading field k's token unchanged |
| Composer.Generate | document_generator/generators/powerpoint_advanced_generator.py:547-562 | corrected `generate`: with at least one field, a slide holding a graphic frame without a table raises ValueError and nothing is saved; otherwise the saved deck keeps the layouts and every slide, each slide's shapes having every field replaced in mapping order |
| Composer.ApplyFields | document_generator/generators/powerpoint_advanced_generator.py:557-559 | the field loop on one slide replaces each field's token in turn, or raises ValueError at the first field when the slide holds a graphic frame without a table |
| Substitution.FieldAppliedIsReplace | document_generator/generators/powerpoint_generator.py:49-50 | the `in` test before `replace` makes no difference: each step is a plain replace |
| Substitution.SubstitutedWithoutTokens | document_generator/generators/excel_generator.py:30-33 | a text holding no field's token ends exactly as it began |
| Substitution.LaterFieldRewritesEarlierValue | document_generator/generators/excel_generator.py:30-33 | fields apply to the current text: an earlier value that is a later field's token is replaced in its turn |
| Substitution.TokenBecomes | document_generator/generators/powerpoint_generator.py:48-50 | a text that is exactly a field's token becomes that field's value |
| Substitution.OwnTokenUntouchedBefore | document_generator/generators/excel_generator.py:30-33 | for distinct brace-free names, the fields before field k leave a text reading field k's token unchanged |
| Substitution.LoneTokenSubstituted | document_generator/generators/excel_generator.py:29-34 | for distinct brace-free names, a text reading field k's token ends as `str(value)` of field k, provided that value holds no later field's token |
| Substitution.SubstituteText | document_generator/generators/excel_generator.py:29-34 | the field loop over one text gives every field applied in mapping order |
| Substitution.RunsSubstituted | document_generator/generators/powerpoint_generator.py:45-50 | run-level substitution keeps the runs, their formats, the level and the alignment |
| Substitution.SplitTokenSurvives | document_generator/generators/powerpoint_generator.py:45-50 | a paragraph none of whose runs holds a whole token is left unchanged |
| Substitution.SplitTokenExample | document_generator/generators/powerpoint_generator.py:45-50 | a paragraph reading `{{name}}` across the runs `{{na` and `me}}` is left unfilled |
| Word.WordDocument.constructor | document_generator/generators/word_generator.py:20 | an opened document holds its body paragraphs, tables and sections |
| Word.RunInParagraphText | document_generator/generators/word_generator.py:53-56 | text inside a run is inside its paragraph's text |
| Word.FieldInParagraphRunByRun | document_generator/generators/word_generator.py:51-57 | the paragraph-level test never matters: one field rewrites each run's own text and keeps runs, level and alignment |
| Word.ParagraphFilledRunByRun | document_generator/generators/word_generator.py:49-57 | after n fields, each run reads its own text with those fields applied; runs, level and alignment are kept |
| Word.ParagraphFilledIsRunsSubstituted | document_generator/generators/word_generator.py:49-57 | the Word paragraph fill equals the run-by-run substitution of the PowerPoint generator |
| Word.FillParagraph | document_generator/generators/word_generator.py:49-57 | `_replace_text_in_paragraph` (field loop, paragraph test, run loop) gives the filled paragraph |
| Word.ParagraphsFilled | document_generator/generators/word_generator.py:23-24 | filling a list of paragraphs keeps their number |
| Word.FillParagraphs | document_generator/generators/word_generator.py:23-24 | the paragraph loop fills every paragraph |
| Word.TableFilled | document_generator/generators/word_generator.py:27-31 | a filled table keeps its rows and cells |
| Word.FillTable | document_generator/generators/word_generator.py:27-31 | the row, cell and paragraph loops fill every cell paragraph |
| Word.Generate | document_generator/generators/word_generator.py:13-47 | body paragraphs, every table cell's paragraphs and every header and footer are filled; nothing else changes |
| Word.TemplateFields | document_generator/generators/word_generator.py:59-89 | a strictly sorted list of exactly the names found in body, cell, header and footer paragraphs, each well formed and present as a token |
| Excel.Workbook.constructor | document_generator/generators/excel_generator.py:20 | an opened workbook holds its worksheets |
| Excel.CellFilledSpec | document_generator/generators/excel_generator.py:27-34 | numbers, booleans and empty cells keep their value; every string cell, the empty one included, holds its text with the fields applied |
| Excel.CellWithoutTokensKept | document_generator/generators/excel_generator.py:27-34 | a cell holding no field's token keeps its value |
| Excel.SheetFilled | document_generator/generators/excel_generator.py:25-34 | a filled sheet keeps its rows and cells |
| Excel.FillSheet | document_generator/generators/excel_generator.py:25-34 | the row and cell loops fill every cell |
| Excel.Generate | document_generator/generators/excel_generator.py:13-38 | every worksheet is filled and the workbook keeps its sheets |
| Excel.TemplateFields | document_generator/generators/excel_generator.py:40-56 | a strictly sorted list of exactly the names found in non-empty string cells, each well formed and present as a token |
| PptBasic.ShapesFilled | document_generator/generators/powerpoint_generator.py:23-33 | filling a slide keeps its number of shapes |
| PptBasic.ShapesFilledKeepStructure | document_generator/generators/powerpoint_generator.py:39-50 | filling keeps the slide's shapes and table grids, and inside each frame and cell the same paragraphs, runs, formats, levels and alignments |
| PptBasic.FrameWithoutTokensKept | document_generator/generators/powerpoint_generator.py:44-50 | a frame none of whose runs holds a token is unchanged |
| PptBasic.FillFrame | document_generator/generators/powerpoint_generator.py:39-50 | the paragraph, run and field loops give the filled frame |
| PptBasic.FillTable | document_generator/generators/powerpoint_generator.py:29-33 | every cell of a table filled |
| PptBasic.FillShape | document_generator/generators/powerpoint_generator.py:25-33 | a shape's frame and its table's cells filled; ValueError exactly when the shape is a graphic frame without a table (line 29) |
| PptBasic.FillShapes | document_generator/generators/powerpoint_generator.py:25-33 | the shape loop fills every shape of a slide, or raises ValueError exactly when one is a graphic frame without a table |
| PptBasic.Generate | document_generator/generators/powerpoint_generator.py:13-37 | ValueError exactly when some slide holds a graphic frame without a table (a chart, SmartArt, an OLE object); otherwise every shape of every slide filled; on both paths the layouts and the slide count are kept, and every slide keeps everything but its shapes (notes, layout name and position) |
| PptBasic.TemplateFields | document_generator/generators/powerpoint_generator.py:52-77 | ValueError exactly when some slide holds a graphic frame without a table (line 68); otherwise a strictly sorted list of exactly the names found in frame and cell texts, each well formed and present as a token |
| Shapes.ProbeTables | document_generator/generators/powerpoint_generator.py:61-68 | the slide and shape loops reach a shape whose `table` raises exactly when some slide holds a graphic frame without a table |

## Left out

- JSON decoding is the parameter `decode`. JSON numbers other than integers are not modelled, and neither is Python treating `true` and `1` as the same dict key.
- Python `str()` of a dict field value is not modelled. Values are None, booleans, integers, strings and lists. `repr` of a string inside a list adds quotes but does not model Python's escaping.
- File I/O is not modelled: `Presentation(path)`, `Document`, `load_workbook`, `shutil.copy` and `save` become objects handed in and the `OutputFile` state. Reloading the template (line 166) gives the same deck.
- The picture-placeholder pass of `_copy_slide_shapes` (lines 249-280) is not modelled. Neither are image blobs beyond their presence, fill colours (lines 347-353), nor the auto-shape preset type.
- The `try`/`except` fallbacks that swallow library errors are not modelled. These are the layout-position lookup (a missing position is None), a copy that fails, and the plain-text fallback of `_copy_text_frame_content`.
- An exception is modelled as a `Fail` outcome. Changes made to a slide or deck before it escapes are not kept in the model; Python leaves them in memory, but the deck is not saved then.
- `_populate_image_field` is a stub in the source and is modelled as a no-op.
- Group shapes are not visited for their children, and a group is never copied: the `AUTO_SHAPE or GROUP` branch (line 334) copies only shapes with an `auto_shape_type` (line 338), which a group lacks. A table is not copied from a template slide, since no branch handles it.
- Metadata.DeclaredType, Cloning.CopyTextFrameContent: the rest of the model is built on these corrected definitions (Findings 2 and 3), so it does not promise the code as written for non-object notes or copied text. This holds for Catalog.CatalogOf, Catalog.CatalogFailsExactly, Catalog.BuildCatalog, Catalog.SlideTypes, Selection.Plan, Cloning.CopyOf, Cloning.Copies, Cloning.CopyOnePlaceholder, Cloning.CopyOnePlaceholderSpec, Composer.Prepared, Composer.ComposedDeck and Composer.GenerateFromSlides. As written, notes such as `1` raise TypeError, notes such as `["slide_type"]` make `get_template_slide_types` raise AttributeError, and every copied text starts with a line feed.
- The layout-position fallback (line 184) never fires in python-pptx: a layout's element is the root of its part, so `getparent()` is None and the bare `except` swallows the error. The model keeps the position as an arbitrary `Option`, a superset of the None it always is.
- A layout placeholder is cloned onto a new slide as a plain shape, never as a graphic frame, so the composition path cannot meet the ValueError of `hasattr(shape, "table")`. The model does not constrain layout placeholders this way, so a layout shape marked as a graphic frame without a table would make its text fields raise there.
- Line breaks inside a paragraph (`\v`, `<a:br>`) are treated as plain characters. python-pptx turns `\n` in `paragraph.text = …` into a break.
- Shape-type code 10 is LINKED_OLE_OBJECT, as the code tests it, although the comment beside it says connector.
- python-docx details are not modelled: hyperlink runs, merged cells visited once per spanned position, and headers linked to a previous section.
- openpyxl formulas and rich text are plain values here.
- Excel.CellFilledSpec, Excel.CellFilled, Excel.Generate: the model stores the whole substituted string in the cell. openpyxl's `cell.value = …` (excel_generator.py:34) cuts a string to 32,767 characters. It also raises IllegalCharacterError on the control characters U+0000-U+0008, U+000B, U+000C and U+000E-U+001F, and the workbook is then not saved. Neither effect is modelled: these checks belong to openpyxl, which is not part of this model.
- Word.Generate, Word.FillParagraph: the model stores every substituted run text. python-docx's `run.text = …` (word_generator.py:57) goes through lxml, which raises ValueError on the same control characters, and the document is then not saved. This error path is not modelled, for the same reason.
- Paragraphs, runs, cells and shapes are values held in the mutable objects' fields; python-pptx proxies that alias the same XML element are not modelled.
- `Strings.Replace` requires a non-empty pattern. Every call in the source passes a token or `{{`.

## Findings

| source | as written | input that shows it | evidently intended | confidence | as-written member | corrected member |
|---|---|---|---|---|---|---|
| document_generator/generators/powerpoint_advanced_generator.py:555 | `generate` first replaces every `{{` by `}}` on each slide, so no `{{name}}` token survives and no field is ever filled | a frame reading `{{title}}` with fields `{"title": "Q3"}` ends as `}}title}}` | replace only each field's own token | high, not executed | Composer.LegacyAsWrittenIgnoresFields | Composer.LoneTokenFilled |
| document_generator/generators/powerpoint_advanced_generator.py:363-365 | `clear()` keeps one empty paragraph and `add_paragraph` appends every source paragraph after it, so each copy starts with a blank line | a text box reading `Hello` is copied as `\nHello` | write the first source paragraph into the paragraph `clear()` keeps | high, not executed | Cloning.CopyAsWrittenAddsLeadingLine | Cloning.CopyTextFrameContent |
| document_generator/generators/powerpoint_advanced_generator.py:99-100 | notes that decode to a JSON value other than an object reach `"slide_type" in metadata` and `metadata["slide_type"]`, which raise TypeError and abort the whole run | speaker notes reading `1`, or `["slide_type"]` | treat any non-object metadata as no metadata, as the `Optional[Dict]` return type promises | medium, not executed | Metadata.NonObjectMetadataAbortsCatalog | Metadata.DeclaredTypeAgreesWhereNoCrash |
