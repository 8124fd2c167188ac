# palace-manager, verified

palace-manager administers Palace chat servers. Around its systemd and nginx plumbing it holds several
self-contained codecs and state machines. This project models them in Dafny and proves what their users
rely on. `dafny verify dfyconfig.toml` checks everything.

Strings are byte strings (`Bytes`); literals in the files are ASCII. Integers are unbounded and every
conversion the source makes is written out (`Numbers`); `Alphabets` lists the character classes. Imperative code
is modelled by methods and classes, each proved against a specification function; the laws are lemmas about those
functions.

- **pserver.prefs** (`PalaceString`, `Prefs*`). Parser, printer, announcement and identity passes, and the form
  save. Printing and parsing undo each other up to a normal form, and a second save is a fixed point. Both the
  announcement pass and the save drop one carriage return before each line break, so neither reaches its fixed
  point on every text: `PrefsFixedPoints` says exactly which lines of the text stand in the way
  (`MergeYpIdempotent`, `SaveFixedPoint`) and gives texts that show it. `PrefsReadings` says what each kind of
  directive sets, for every argument that can be written, `PrefsKept` which lines are handed back unread,
  `PrefsAnnounced` what a save announces, and `PrefsFormShown` what of a form comes back.
- **PAT files** (`Pat*`). The tokenizer is a class over a position that only moves forward; each parser loop
  terminates because it takes a token no later push-back gives back. `PatMeaning` says what a file of rooms means
  without a tokenizer, and `PatRoomReading` proves that the parser finds exactly that in any layout of blanks and
  comments. Words may be in any case, names bare or quoted, and scripts and props any words, numbers, quoted
  strings, brackets and punctuation but their closing word; numbers are decimal or hexadecimal, and strings are
  quoted as `pserver.prefs` quotes them. `PatKeys` says under which names a picture is found. A `NAVAREA` block
  closes with any of the four closing words, since the parser knows no other.
  In a `PICTS` list the parser skips the token after a comma that follows a picture id, although the point
  starts there. `PictsReadIff` says exactly which lists survive that (`InStep`), `CommaListLosesRoom` shows a
  file that does not, and the file theorem asks it of every list. `SpotNeverFirst` proves that no text makes
  the parser return a hotspot's reference, although the record has a kind for it.
- **Account store** (`Auth*`). The store is a class over a list of users. Its invariant (unique usernames, every
  subaccount within an existing tenant's palaces, permissions in normal form) holds in every run of its operations
  (`RunKeepsInv`), and purge and rename have exact effects on access. Go's map iteration order is an arbitrary
  choice. `AuthEffects` says of every operation which records it changes and which it leaves, and `AuthReasons`
  which error it reports and what a new user can access. In runs, palace names of tenants are trimmed and
  non-empty: a subaccount is checked against the trimmed names, and `CreateSubaccountWithinIff` says exactly when
  that keeps it within its tenant. `Update` alone checks neither subaccounts nor admins; `UpdateKeepsInvIff` and
  `UpdateAdminIff` say exactly when it does no harm, and runs contain only the prune-then-update patch that keeps
  tenants tenants and admins admins. Each condition has a store that fails it.
- **serverprefs.json form** (`ServerPrefs*`). Reading and writing the guided keys is a lens over a JSON object:
  put-get, put-put, a frame for foreign keys, and `SameFileIff`: two forms give the same file exactly when they
  have the same normal form. Saving a shown form back unchanged need not show it again: the reader lets a negative
  purge age and a password length below one through and the writer does not (`ResaveShowsSame`).
  `ServerPrefsChoices` says of each choice what survives: no legal form loses anything. `ServerPrefsFiles` says
  what a file shows that something else wrote, values of the wrong type included.
- **Command ranks** (`CommandRanks*`). The override loop is independent of map order. Normalizing the request is
  not when two spellings of one command ask for different ranks; `PutDeterministic` says exactly when the answer
  of the PUT still is, and `SavedRankShown` what is shown after it.
- **Trivia files** (`Trivia*`). Rendering and parsing undo each other exactly when no field holds a line end or a
  marker (`RoundTripIff`); `TriviaReadings` says what any other line or file is read as. White space before a
  marker is that of a single byte taken as a code point, so bytes 0x85 and 0xA0 count.
- **Update flag** (`UpdateFlag`, `UpdateFinish`). A state machine with an explicit mutex. With response writers that can
  flush the update section is exclusive; the early exit of a manual update clears the flag twice, and
  `ExclusiveIff` says exactly which sets of processes that can hurt. No interleaving gets stuck (`CanFinish`).
- **Audit log** (`Audit*`). The tail window is a suffix of the history, and the query returns its newest matching
  entries (`AnswerMeaning`). `AuditLines` says what is read from a file with broken lines.
- **PAT highlighter** (`Highlighter*`). Lossless for every text. A text has one list of tokens only, and the type
  annotation gives each is a property of its surroundings (`Annotated`), told by nested blocks in `NameTold`.
- **ustar writer** (`TarWriter`). One well-formed entry of the ustar Interchange Format (pax utility,
  IEEE Std 1003.1).

## Model

| member | source | states |
|---|---|---|
| `PalaceString.PalaceQuoted` | internal/pserverprefs/merge.go:105-124 | the byte loop writes the quoted form of every byte string: printable bytes as they are, backslash and quote escaped, any other byte as two upper-case hex digits |
| `PalaceString.ParsePalaceQuoted` | internal/pserverprefs/parse_form.go:196-234 | the decoding loop returns the text before the closing quote with escapes undone, or nothing when no closing quote comes |
| `PalaceString.QuotedRoundTrip` | internal/pserverprefs/merge.go:105-124 | for every byte string and whatever follows the closing quote, decoding the quoted form gives the string back |
| `PalaceString.EscapedIsPrintable` | internal/pserverprefs/merge.go:105-124 | escaped text is printable ASCII and a quote in it only ever follows a backslash |
| `PalaceEscapes.QuotedDecoded` | internal/pserverprefs/parse_form.go:196-234 | every quoted string, however it is written: bytes as they are, the escapes for line feed, carriage return and tab, any other escaped byte, and two hexadecimal digits in either case; it decodes to what its pieces mean, whatever follows the closing quote |
| `PalaceEscapes.UnclosedRefused` | internal/pserverprefs/parse_form.go:196-234 | pieces without a closing quote are refused, a lone backslash at the end included |
| `PalaceEscapes.SomePieces` | internal/pserverprefs/parse_form.go:202-232 | every text after an opening quote is such pieces up to a closing quote or to its end, so these two laws cover every argument |
| `Numbers.DecRoundTrip` | internal/pserverprefs/parse_form.go:173-184 | every 64-bit integer survives printing in decimal and reading back |
| `NumberLaws.AtoiReads` | internal/pserverprefs/parse_form.go:182-183 | digits with an optional sign read as their positional value, or as the nearest 64-bit integer with an error |
| `NumberLaws.AtoiAccepts` | internal/pserverprefs/parse_form.go:182-183 | an accepted text is digits with an optional sign and its value is theirs |
| `NumberLaws.AtoiRefuses` | internal/pserverprefs/parse_form.go:182-183 | a text with any other byte is refused and counts as 0, unless the digits before it are out of range already |
| `NumberLaws.HexReads` | internal/pserverprefs/parse_form.go:178-181 | hexadecimal digits of either case read as their positional value, or as the greatest value allowed |
| `PrefsDirectives.WordIsItself` | internal/pserverprefs/parse_form.go:35-147 | each directive's word is recognised as that directive and as no other |
| `PrefsParser.ParsePrefState` | internal/pserverprefs/parse_form.go:12-151 | the line loop computes the state, unknown tail and warnings of the line-by-line specification, on every text |
| `PrefsReadings.ReadAnySpelling` | internal/pserverprefs/parse_form.go:33-40 | any spelling of a directive, its word in any case with white space before it and a blank or a tab after it, reads as that directive with its trimmed argument |
| `PrefsReadings.AutoPurgeRead` | internal/pserverprefs/parse_form.go:89-91 | after any lines, an AUTOPURGE line leaves the flag on if and only if the first field of its argument is on, 1, true or yes, in any case |
| `PrefsReadings.AutoPurgeOff` | internal/pserverprefs/parse_form.go:89-91 | the file with AUTOPURGE OFF: the flag is off whatever the lines before it say |
| `PrefsReadings.DecimalRead` | internal/pserverprefs/parse_form.go:69-88 | after any lines, a numeric directive with a decimal argument leaves its own field holding the low bits of the number, clamped to 64 bits |
| `PrefsReadings.HexadecimalRead` | internal/pserverprefs/parse_form.go:173-184 | the same with a hexadecimal argument; more than 32 bits count as all ones |
| `PrefsReadings.NoNumberRead` | internal/pserverprefs/parse_form.go:173-184 | an argument with a byte that is no digit sets the field to 0, unless it is hexadecimal or out of range before |
| `PrefsReadings.StringRead` | internal/pserverprefs/parse_form.go:41-139 | after any lines, a string directive sets its own field to what the quoted pieces mean, trimmed for hashes and chat-log strings, whatever follows the closing quote |
| `PrefsReadings.StringRefused` | internal/pserverprefs/parse_form.go:41-139 | an argument without its quotes changes nothing in the state |
| `PrefsReadings.FlagRead` | internal/pserverprefs/parse_form.go:65-145 | a flag directive sets its own flag whatever its argument says |
| `PrefsReadings.SecondSpellings` | internal/pserverprefs/parse_form.go:47-55 | OPERATORPASSWORD and OWNERPASSWORD name the wizard and the god password |
| `PrefsReadings.WarnedIff` | internal/pserverprefs/parse_form.go:41-46 | the warnings are exactly one for each line that names the server without a readable string, with its number counted from one |
| `PrefsKept.PreservedExactly` | internal/pserverprefs/parse_form.go:16-38 | the lines handed back unread are exactly the comments and the lines whose first word is no directive in either spelling, in order, without the comments of the heading while nothing else has come |
| `PrefsRenderer.RenderPrefState` | internal/pserverprefs/render_form.go:10-109 | the sequence of conditional writes produces exactly the banner and the directives of the rendering specification, in order |
| `PrefsRoundTrip.ParsedState` | internal/pserverprefs/parse_form.go:12-151 | the parsed state is the fold of the single lines' effects; banner, comments and warnings play no part |
| `PrefsRoundTrip.ReadPrinted` | internal/pserverprefs/parse_form.go:153-163 | any printed directive line splits back into its word and its trimmed argument |
| `PrefsRoundTrip.RoundTrip` | internal/pserverprefs/render_form.go:10-109 | for every state, parsing its rendering gives exactly its normal form, an empty unknown tail and no warning |
| `PrefsRoundTrip.RenderedNormal` | internal/pserverprefs/render_form.go:10-109 | a state and its normal form render to the same bytes |
| `PrefsRoundTrip.RenderedInjective` | internal/pserverprefs/render_form.go:10-109 | two states render to the same bytes if and only if they have the same normal form |
| `PrefsState.NormalIdempotent` | internal/pserverprefs/formstate.go:5-42 | taking the normal form twice is taking it once |
| `PrefsMerge.MergeYPAnnounce` | internal/pserverprefs/merge.go:12-54 | the filter loop, the blank-line popping and the two conditional writes produce the announced text of the specification |
| `PrefsMerge.MergeServerNameSysop` | internal/pserverprefs/merge.go:58-102 | the same for the server name and operator pass |
| `PrefsMergeLaws.MergeYpKeepsState` | internal/pserverprefs/merge.go:12-54 | announcing never changes what the parser reads, for any text, host and port |
| `PrefsMergeLaws.MergeYpCounts` | internal/pserverprefs/merge.go:12-54 | an announced text has one address line iff the trimmed host is not empty and one port line iff the port is positive, and no other such line |
| `PrefsFixedPoints.MergeYpIdempotent` | internal/pserverprefs/merge.go:12-54 | announcing twice is announcing once if and only if no line of the text that is kept, and not among the blank lines at the end, has a carriage return too many: two before its line break, or one at the end of the text |
| `PrefsFixedPoints.MergeYpIdempotentPlain` | internal/pserverprefs/merge.go:13-30 | on a text without carriage returns announcing twice is announcing once |
| `PrefsFixedPoints.MergeYpNotIdempotent` | internal/pserverprefs/merge.go:13-30 | a concrete text on which a second announcement changes the bytes |
| `PrefsMergeLaws.MergeIdentityState` | internal/pserverprefs/merge.go:58-102 | the identity pass sets the parsed name and operator to its trimmed arguments and changes nothing else the parser reads, for any text |
| `PrefsForm.SaveForm` | internal/api/handlers.go:1336-1387 | the save pipeline: parse, merge, render with the unknown tail, update the registry entry of an admin, announce |
| `PrefsAnnounced.AnnouncedExactly` | internal/pserverprefs/merge.go:12-54 | the announcement lines of an announced text are exactly the appended ones, whatever the text held before |
| `PrefsAnnounced.SaveAnnouncesRequest` | internal/api/handlers.go:1336-1387 | an admin's save of a registered palace: the file announces exactly the trimmed host and one port, the requested one if positive, else the palace's TCP port if positive, else none, and the registry holds the same; a blank host leaves neither line |
| `PrefsAnnounced.SaveAnnouncesRegistry` | internal/api/handlers.go:1336-1387 | anybody else's save announces the registered host and port and leaves the registry alone |
| `PrefsAnnounced.SaveUnregistered` | internal/api/handlers.go:1336-1387 | a palace that is not registered stays so, and its file starts with the rendered block |
| `PrefsFormLaws.SavedFile` | internal/api/handlers.go:1336-1387 | what a save writes: the rendered block, the preserved lines the announcement pass keeps, and the announcement; it parses to the merged state in normal form without warnings |
| `PrefsFormLaws.SaveShowsForm` | internal/api/handlers.go:1336-1387 | opening a saved file shows the clamped and trimmed form, the hidden directives of the old file in normal form, and every preserved line |
| `PrefsFormShown.SavedFormShown` | internal/api/handlers.go:1336-1387 | the same told field by field: which texts come back as given and which trimmed, 16-bit numbers kept or cut to the nearest, the low 32 bits of the recycle limit, csv or json, and every directive the form hides as it was, except that a plain password drops the hash |
| `PrefsFormShown.TextOpened` | internal/pserverprefs/form_dto.go:26-45 | a quoted string in the last line of any file is shown in its directive's own field |
| `PrefsFixedPoints.SaveFixedPoint` | internal/api/handlers.go:1336-1387 | saving an opened file unchanged writes the same bytes if and only if no line of the existing file that the save preserves has a carriage return too many; an announcing save forgives one more and does not preserve announcement lines |
| `PrefsFixedPoints.SaveNotFixed` | internal/api/handlers.go:1336-1387 | a concrete file that a second save changes, whatever the form |
| `PrefsFixedPoints.SaveFixedPointPlain` | internal/api/handlers.go:1336-1387 | for a file without carriage returns the second save always writes the same bytes |
| `PrefsFormLaws.UpdatedTwice` | internal/api/handlers.go:66-74 | updating the registry entry twice with the same host and port is updating it once |
| `PatTokenizer.Tokenizer.GetToken` | internal/patparse/tokenizer.go:16-95 | the scanner with push-back takes the token of the specification, never reads out of range, and lowers twice the input left plus the push-back with every token |
| `PatTokenizer.Tokenizer.TakeQuoted` | internal/patparse/tokenizer.go:50-77 | the quoted-text loop decodes escapes up to the closing quote or the end; every escape read stays inside the data because of the final zero byte |
| `PatTokenizer.Tokenizer.GetPString` | internal/patparse/tokenizer.go:99-156 | reads a name or a quoted string as a Pascal string whose length byte keeps eight bits, and leaves a pushed-back token pushed back |
| `PatTokenizer.Tokenizer.ParsePoint` | internal/patparse/tokenizer.go:182-210 | reads one or two coordinates; a token after the first coordinate that is not part of the point is pushed back, and a first token that is no number is consumed |
| `PatScanner.PascalRoundTrip` | internal/patparse/tokenizer.go:212-221 | reading a Pascal string back gives the first length-mod-256 bytes, hence the whole string for at most 255 bytes |
| `PatStrings.QuotedMeans` | internal/patparse/tokenizer.go:50-77 | quoted text with any escapes, a quote or backslash after a backslash or any two bytes as hexadecimal digits, is read as what its pieces mean and ends at its closing quote |
| `PatStrings.NoStringRead` | internal/patparse/tokenizer.go:99-156 | before anything but a name, a quote or a comment no string is read, and that byte stays to be read |
| `PatLayout.HexRead` | internal/patparse/tokenizer.go:158-169 | a number written in hexadecimal is read as its value, cut to 32 bits |
| `PatScanner.GetToken` | internal/patparse/tokenizer.go:16-95 | a token taken lowers the fuel that bounds every parser loop |
| `PatWords.ReadsItself` | internal/patparse/refs.go:56-70 | each directive word of the parser reads as itself |
| `PatParser.ParsePatFirstRefs` | internal/patparse/refs.go:50-72 | the token loop over the whole text terminates and returns the specified first-reference map, on every byte string |
| `PatParser.ParseRoom` | internal/patparse/refs.go:96-145 | the room loop, with the room's variables and the reference map updated in place |
| `PatParser.ParsePicture` | internal/patparse/refs.go:154-185 | the picture loop; only a closed picture is recorded and counted |
| `PatParser.ParseHotspot` | internal/patparse/refs.go:187-265 | the hotspot loop; only a closed hotspot records its pictures, in order |
| `PatParser.ParsePicts` | internal/patparse/refs.go:221-242 | the PICTS loop with its comma and push-back cases |
| `PatParser.SkipOutline` | internal/patparse/refs.go:267-285 | coordinates and commas are skipped and the first other token is pushed back |
| `PatRefs.FirstRefMap.AddFirst` | internal/patparse/refs.go:37-47 | keys that are already taken keep their reference |
| `PatKeys.KeysOfPath` | internal/patparse/refs.go:24-35 | the keys of any name with a last element, inside any white space and with any slashes after it: that element in lower case first, then the whole path in lower case if it has a slash |
| `PatKeys.KeysBelow` | internal/patparse/refs.go:24-35 | a name below a directory has exactly the two keys, the file name and the path |
| `PatKeys.KeysOfNoName` | internal/patparse/refs.go:24-35 | a blank name has no key, and nothing but slashes has one slash and itself |
| `PatKeys.LeafIsKey` | internal/patparse/refs.go:24-47 | a text without a slash is a key of a name if and only if it is the lower-case last element of the name |
| `PatLayout.QuotedScanned` | internal/patparse/tokenizer.go:50-77 | on a string quoted by the prefs renderer both decoders of the tokenizer give the text back, cut to its length byte in the Pascal case, and stop just past the closing quote |
| `PatLayout.GapSkipped` | internal/patparse/tokenizer.go:21-34 | any run of blanks and comment lines before a token is skipped |
| `PatLayout.AtomScanned` | internal/patparse/tokenizer.go:21-95 | every kind of atom (word, name, number, quoted string, bracket, run of punctuation) reads as its own token and stops where it ends, whenever the next byte leaves it as it is |
| `PatLayout.TakeString` | internal/patparse/tokenizer.go:99-156 | getPString reads a name with or without quotes and leaves the atom after it next |
| `PatLayout.TakePoint` | internal/patparse/tokenizer.go:182-210 | parsePoint reads a written point and leaves the atom after it as the next token |
| `PatReading.PictureRead` | internal/patparse/refs.go:154-185 | a written PICTURE block is read to its end and means what its items say |
| `PatPicts.PictsReadIff` | internal/patparse/refs.go:221-242 | a written PICTS list, with or without a comma between each id and its point, is read to its closing word with exactly its ids if and only if it is in step: no such comma, save where the coordinate after it cannot be an id or happens to be the next one |
| `PatPicts.NoEchoInStepIff` | internal/patparse/refs.go:233-239 | apart from such coincidences a list is in step if and only if no comma stands between an id and its point |
| `PatPicts.AllCommasOutOfStep` | internal/patparse/refs.go:233-239 | no list of entries id,h,v with 16-bit coordinates is in step, unless it is empty |
| `PatPicts.CommaListLost` | internal/patparse/refs.go:221-242 | in PICTS 1,10,20 ENDPICTS the second coordinate is taken for a picture and the closing word is swallowed |
| `PatLosses.CommaListLosesRoom` | internal/patparse/refs.go:221-242 | a concrete file with that list, in any layout: its room names a background and the parser returns nothing |
| `PatLosses.SpotNeverFirst` | internal/patparse/refs.go:154-265 | on no text is a hotspot's reference ever returned, because a hotspot only names pictures whose own reference came first |
| `PatEnds.PictureClosed` | internal/patparse/refs.go:154-185 | on any text, a picture ends with the word ENDPICTURE in any case or at the end of the text, and counts as closed only in the first case |
| `PatEnds.SpotClosed` | internal/patparse/refs.go:187-265 | the same for a hotspot and its four closing words |
| `PatEnds.LastCoordinate` | internal/patparse/tokenizer.go:182-210 | a coordinate that is the last token of the text is the whole point and is not read again |
| `PatReading.OutlineRead` | internal/patparse/refs.go:267-285 | a written outline is skipped and the word after it is read next, so the push-back costs nothing |
| `PatRoomReading.SpotRead` | internal/patparse/refs.go:187-265 | a written hotspot is read to its closing word and means what its items say |
| `PatRoomReading.RoomRead` | internal/patparse/refs.go:96-145 | a written room is read to ENDROOM and records its events in order, hotspots only through pictures closed before them |
| `PatRoomReading.FirstRefsMeaning` | internal/patparse/refs.go:50-265 | for every file of rooms whose PICTS lists are in step, in any layout of blanks and comments, words in any case, names with or without quotes, scripts of words, numbers, quoted strings, brackets and punctuation, and with anything after END, the parser records exactly the file's events in order |
| `PatRoomReading.FirstRefsFirst` | internal/patparse/refs.go:37-72 | in any such file a key is found if and only if some event names it, and then gives the reference of the first such event |
| `PatKeys.FileNameFound` | internal/patparse/refs.go:24-72 | in any such file a file name is found, in any case, if and only if some event names a file so called in whatever directory, and then gives the reference of the first such event |
| `PatRoomReading.BanRec2Skipped` | internal/patparse/refs.go:74-94 | one token, twelve numbers in decimal or hexadecimal and three names are skipped, and the word after them is read next |
| `PatMeaning.RecordedFirst` | internal/patparse/refs.go:37-47 | recording events keeps, for each key, what was there or else the first event with that key |
| `AuthPerms.NormalizePalacePerms` | internal/authstore/permissions.go:44-76 | the walk over the map in any order returns one of its normal forms |
| `AuthPerms.NormalizeDeterministic` | internal/authstore/permissions.go:44-76 | the result does not depend on the walk's order if and only if no two keys name the same palace with different permissions |
| `AuthPerms.NormalizeAmbiguous` | internal/authstore/permissions.go:44-76 | a concrete map with two results |
| `AuthPerms.NormListMeaning` | internal/authstore/permissions.go:54-71 | a normal list is strictly ascending and holds exactly the valid permissions asked for |
| `AuthPerms.NormListTwice` | internal/authstore/permissions.go:54-71 | normalizing a normal list changes nothing |
| `AuthPerms.SettledFixed` | internal/authstore/permissions.go:44-76 | normalizing a map that was normalized before changes nothing, in any order |
| `AuthPerms.ValidateSubaccountPalacePerms` | internal/authstore/permissions.go:111-129 | for any permissions: accepts exactly when some palace is asked for, however spelled, and all are among the parent's trimmed palaces; a refusal names one that is not |
| `AuthPerms.HasPalacePerm` | internal/authstore/permissions.go:79-93 | true exactly when the permission is in the palace's list |
| `AuthUsers.CanAccessPalace` | internal/authstore/store.go:112-132 | admins everywhere, tenants at their palaces, subaccounts where their list is not empty, others nowhere |
| `AuthStore.Store.Create` | internal/authstore/store.go:180-208 | appends the user or reports the first error, in the source's order, leaving the list alone |
| `AuthStore.Store.CreateSubaccount` | internal/authstore/store.go:413-447 | appends the subaccount with its parent and normalized permissions, or reports the first error |
| `AuthStore.Store.Update` | internal/authstore/store.go:210-248 | replaces role and palaces and drops parent and permissions; a failed hash is reported after the record changed |
| `AuthStore.Store.UpdateSubaccount` | internal/authstore/store.go:450-481 | replaces the permissions of a subaccount of that parent by the normalized ones |
| `AuthStore.Store.Delete` | internal/authstore/store.go:516-552 | removes the user, and with a tenant its subaccounts; refuses the last admin |
| `AuthStore.Store.DeleteSubaccount` | internal/authstore/store.go:493-514 | removes a subaccount of that parent only |
| `AuthStore.Store.RenamePalaceInTenantBindings` | internal/authstore/store.go:252-274 | renames in every tenant's list and every subaccount's permissions, in place |
| `AuthStore.Store.RemovePalaceAfterPermanentDelete` | internal/authstore/store.go:279-354 | the two loops of the purge leave one of the lists the purge relation allows |
| `AuthStore.Store.PruneSubaccountPalacesForTenant` | internal/authstore/store.go:368-397 | narrows the tenant's subaccounts in order and stops at the first that would lose everything, keeping the ones already narrowed |
| `AuthStore.Store.PatchUser` | internal/api/handlers_session.go:184-244 | prune, then update, as the handler does it: the users it leaves and the error it reports, also after a prune that stopped half way |
| `AuthStore.Store.SetPassword` | internal/authstore/store.go:151-166 | sets the hash and lifts the demand to change it, for the named user only |
| `AuthInvariant.DeleteKeepsInv` | internal/authstore/store.go:516-552 | deleting keeps usernames unique and every subaccount within an existing tenant |
| `AuthEffects.DeleteEffects` | internal/authstore/store.go:516-552 | an accepted delete removes the named user and, with a tenant, exactly the subaccounts whose parent it is; the record found under every other name is the same as before |
| `AuthEffects.DeleteAcceptedIff` | internal/authstore/store.go:516-539 | a delete is accepted if and only if the user is known and not the only admin |
| `AuthEffects.DeleteSubaccountEffects` | internal/authstore/store.go:493-514 | only a subaccount of that parent is removed, nobody else changes, and anything else is refused |
| `AuthEffects.CreateEffects` | internal/authstore/store.go:180-208 | an accepted user is found under its name with its hash, and nobody else changes |
| `AuthEffects.CreateAcceptedIff` | internal/authstore/store.go:180-208 | exactly which users are accepted |
| `AuthEffects.CreateSubaccountEffects` | internal/authstore/store.go:413-447 | an accepted subaccount is found with its parent, its permissions, its hash and no palaces, and nobody else changes |
| `AuthEffects.ParentAcceptedIff` | internal/authstore/permissions.go:111-129 | permissions are accepted if and only if there are some, the parent is a tenant, and it lists each palace up to white space |
| `AuthEffects.UpdateEffects` | internal/authstore/store.go:210-248 | an accepted update sets role, palaces and password and drops parent and permissions; a refused one changes nothing; nobody else changes |
| `AuthEffects.UpdateAcceptedIff` | internal/authstore/store.go:210-248 | exactly which updates are refused |
| `AuthEffects.UpdateSubaccountEffects` | internal/authstore/store.go:450-481 | an accepted change sets permissions and password of a subaccount of that parent and nothing else of it or of others |
| `AuthEffects.PasswordEffects` | internal/authstore/store.go:151-166 | a hash that works is stored and lifts the demand to change the password; one that fails leaves the record alone |
| `AuthEffects.PruneStops` | internal/authstore/store.go:368-397 | pruning fails if and only if some subaccount would lose everything; it names the first such, has narrowed the ones before it and leaves the rest |
| `AuthEffects.PatchEffects` | internal/api/handlers_session.go:184-244 | an accepted patch sets what it names and keeps the rest; a tenant's new palaces narrow its subaccounts, and nobody else changes |
| `AuthEffects.PatchRefused` | internal/api/handlers_session.go:184-244 | a patch of an unknown user, of a subaccount or to another role changes nothing |
| `AuthReasons.CreateReason` | internal/authstore/store.go:180-208 | a new user is refused for the first failing check, in the source's order |
| `AuthReasons.CreateSubaccountReason` | internal/authstore/store.go:413-447 | the same for a new subaccount, the checks of its parent and of its palaces included |
| `AuthReasons.UpdateReason` | internal/authstore/store.go:210-248 | the same for an update, a failed hash coming last |
| `AuthReasons.UpdateSubaccountReason` | internal/authstore/store.go:450-481 | the same for a subaccount's update |
| `AuthReasons.PatchReason` | internal/api/handlers_session.go:184-244 | the same for a patch: after the early checks the first user, in the store's order, that the new palaces would strand, then the update's own checks |
| `AuthReasons.PatchLeaves` | internal/api/handlers_session.go:184-244 | a patch refused before its pruning changes nothing; one refused after it leaves the subaccounts narrowed |
| `AuthReasons.PatchHashFails` | internal/api/handlers_session.go:184-244 | a patch whose hash fails leaves what the same patch without a password leaves |
| `AuthReasons.SubaccountReaches` | internal/authstore/store.go:413-447 | a new subaccount can access exactly the palaces for which some key asks, up to white space, for a permission that exists in any case and padding |
| `AuthReasons.CreatedReaches` | internal/authstore/store.go:112-132 | a new admin can access every palace and a new tenant exactly its own |
| `AuthReasons.PermissionNamed` | internal/authstore/permissions.go:10-41 | the permissions are ten words, in any case and padding |
| `AuthInvariant.CreateSubaccountKeepsInv` | internal/authstore/store.go:413-447 | creating a subaccount keeps the invariant, because its palaces were checked against the parent's |
| `AuthInvariant.CreateSubaccountWithinIff` | internal/authstore/permissions.go:117-127 | on any store with unique usernames, an accepted subaccount stays within its tenant if and only if the tenant holds every palace asked for as it is spelled, not merely once trimmed |
| `AuthInvariant.UpdateSubaccountWithinIff` | internal/authstore/store.go:450-481 | the same for new permissions of an existing subaccount |
| `AuthInvariant.UntrimmedNamesBreak` | internal/authstore/permissions.go:117-122 | a concrete store in which a tenant's untrimmed palace name lets a subaccount outside its tenant's palaces |
| `AuthInvariant.UpdateKeepsInvIff` | internal/authstore/store.go:210-248 | an accepted update keeps the invariant if and only if the user stays a tenant whose new palaces cover its subaccounts, or has none |
| `AuthInvariant.UpdateBreaks` | internal/authstore/store.go:210-248 | two concrete accepted updates that leave a subaccount outside its tenant: fewer palaces, and another role |
| `AuthRename.RenameAccess` | internal/authstore/store.go:252-274 | what access to every palace becomes under any rename, also to a name already in use |
| `AuthRename.RenameCarriesAccess` | internal/authstore/store.go:252-274 | renaming to an unused name carries access across exactly and leaves every other palace alone |
| `AuthRename.RenameBack` | internal/authstore/store.go:252-274 | renaming back restores the whole store if and only if nothing used the new name before |
| `AuthRename.RenameBackLoses` | internal/authstore/store.go:252-274 | a concrete tenant that a rename to a palace it holds and back leaves with one palace |
| `AuthPurge.PurgeEstablishes` | internal/authstore/store.go:279-354 | from unique usernames alone a purge leaves every subaccount within an existing tenant |
| `AuthPurge.PurgeUnreachable` | internal/authstore/store.go:279-354 | after a purge nobody but admins reaches the palace |
| `AuthPurge.PurgeElsewhere` | internal/authstore/store.go:279-354 | under the invariant a purge changes, for every username and every other palace, neither access nor the delegated permissions |
| `AuthPurgeEffects.PurgeEffects` | internal/authstore/store.go:276-354 | under the invariant, for every username: a tenant goes exactly when it has no other palace and otherwise keeps the others, a subaccount goes exactly when it has permissions nowhere else and otherwise keeps those, and everybody else's record is the same |
| `AuthRuns.PruneKeepsInv` | internal/authstore/store.go:368-397 | pruning keeps the invariant even when it stops half way with an error |
| `AuthRuns.PatchKeepsInv` | internal/api/handlers_session.go:184-244 | prune-then-update keeps the invariant when a tenant stays a tenant, also when the prune fails |
| `AuthRuns.DeleteKeepsAdmin` | internal/authstore/store.go:519-539 | a delete never removes the last admin |
| `AuthRuns.UpdateAdminIff` | internal/authstore/store.go:210-248 | an accepted update leaves an admin if and only if it makes one or another is there |
| `AuthRuns.UpdateDropsAdmin` | internal/authstore/store.go:210-248 | a concrete accepted update that leaves a store without admins |
| `AuthRuns.RunKeepsInv` | internal/authstore/store.go:180-552 | in every run of the store's operations every state satisfies the invariant, and a store with an admin never loses its last one |
| `AuthRuns.RunFromEmpty` | internal/authstore/store.go:180-552 | in every run from an empty store every state satisfies the invariant |
| `ServerPrefsLens.MapToForm` | internal/serverprefsform/map.go:171-205 | the form a file shows; room objects are walked in any order, so their ids are determined as sets |
| `ServerPrefsLens.ApplyFormToMap` | internal/serverprefsform/map.go:283-549 | the sequence of sets and deletes leaves every managed key as the form asks and every other key as it was |
| `ServerPrefsLens.SetRoomBoolMap` | internal/serverprefsform/map.go:551-568 | writes the rooms in the 16-bit range as keys of an object, or removes the key |
| `ServerPrefsLens.IntRoomSetFromMapObj` | internal/serverprefsform/map.go:128-149 | returns the rooms whose keys are numbers in range with value true; an object with a wrong value has none |
| `ServerPrefsLaws.PutGet` | internal/serverprefsform/map.go:171-549 | a saved file shows the normal form of what was saved, whatever was in the file before |
| `ServerPrefsChoices.LegalFormKept` | internal/serverprefsform/map.go:171-549 | a legal form comes back exactly as it was saved, with every choice, number, flag and room |
| `ServerPrefsChoices.MediaManagerRankKept` | internal/serverprefsform/map.go:104-113 | owners, gods and wizards are kept in any case and padding, god and wizard give the plurals, every other text gives owners; the saved value is that word, or absent for owners |
| `ServerPrefsChoices.MediaUploadRankKept` | internal/serverprefsform/map.go:115-126 | the same with off besides |
| `ServerPrefsChoices.RoomAnnotationsKept` | internal/serverprefsform/map.go:78-90 | off, wizards and everyone are kept, wizard gives wizards, every other text gives everyone |
| `ServerPrefsChoices.WizAuthoringKept` | internal/serverprefsform/map.go:92-102 | on, off, bless and godonly are kept, every other text gives on |
| `ServerPrefsChoices.NumbersRepaired` | internal/serverprefsform/map.go:283-549 | what a later read shows for numbers below their bounds and for rooms outside 16 bits |
| `ServerPrefsChoices.DefaultsShown` | internal/serverprefsform/map.go:171-205 | a file whose guided keys are absent or null shows the defaults, field by field |
| `ServerPrefsChoices.DefaultsCleared` | internal/serverprefsform/map.go:283-549 | saving the defaults removes every guided key and writes the version |
| `ServerPrefsFiles.TextRead` | internal/serverprefsform/map.go:42-52 | a text key shows its text without the white space around it, and nothing for a value of another type |
| `ServerPrefsFiles.NumberRead` | internal/serverprefsform/map.go:66-76 | a number key shows any 64-bit integer as it is, and 0 for any other value |
| `ServerPrefsFiles.FlagRead` | internal/serverprefsform/map.go:54-64 | a flag key shows its boolean, and its own default for any other value |
| `ServerPrefsFiles.ChoicesRead` | internal/serverprefsform/map.go:78-126 | each choice key shows the choice its text makes, and the default for a value that is no text |
| `ServerPrefsFiles.SoundRead` | internal/serverprefsform/map.go:219-235 | a sound limit shows its fields, numbers that are not positive repaired; one field of a wrong type spoils the record |
| `ServerPrefsFiles.PasswordRead` | internal/serverprefsform/map.go:241-266 | password rules show their fields as they are; one field of a wrong type spoils the record |
| `ServerPrefsFiles.FloodKillRead` | internal/serverprefsform/map.go:207-217 | the same for the flood limits |
| `ServerPrefsFiles.OverflowRead` | internal/serverprefsform/map.go:151-168 | an overflow list shows its rooms in order, null as room 0, numbers outside 16 bits passed over; an element of another type empties it |
| `ServerPrefsFiles.RoomsRead` | internal/serverprefsform/map.go:128-149 | a room object shows exactly the 16-bit numbers that its switched-on keys spell, with sign and white space allowed; a value that is no switch empties it |
| `ServerPrefsLaws.PutPut` | internal/serverprefsform/map.go:283-549 | saving one form and then another is saving the second alone |
| `ServerPrefsLaws.Frame` | internal/serverprefsform/preserve.go:8-21 | every key that is neither guided nor the version keeps its value, all preserved keys among them |
| `ServerPrefsLaws.SameFileIff` | internal/serverprefsform/map.go:283-549 | two forms save to the same file if and only if they have the same normal form |
| `ServerPrefsLaws.ResaveShowsSame` | internal/serverprefsform/map.go:171-549 | saving a shown form unchanged shows it again if and only if the file held no negative purge age and no password length below one |
| `ServerPrefsLaws.ResaveChanges` | internal/serverprefsform/map.go:171-549 | a concrete file whose form, saved unchanged, shows another purge age |
| `ServerPrefsLaws.ResaveFixed` | internal/serverprefsform/map.go:283-549 | opening a saved file and saving it unchanged writes the same file |
| `CommandRanks.HandlePut` | internal/api/handlers_command_ranks.go:183-238 | gives one of the answers that are possible, by what normalization makes of the request: refuses bad names and ranks and otherwise returns the overrides of the order-free specification |
| `CommandRanks.Overrides.Put` | internal/api/handlers_command_ranks.go:226-238 | the override loop, in any order, does to each key what the specification says without any order |
| `CommandRanks.Overrides.DeleteRankOverrideAndAliases` | internal/api/default_command_ranks.go:51-58 | removes the command's key and the keys of its aliases and no other |
| `CommandRanks.MergeOverrideForCanonical` | internal/api/default_command_ranks.go:36-49 | the command's own override, or else that of one of its aliases |
| `CommandRanks.PutOrderFree` | internal/api/handlers_command_ranks.go:226-238 | the result does not depend on the order in which the request is walked |
| `CommandRanks.PutShown` | internal/api/handlers_command_ranks.go:226-238 | a requested command has no alias override left and any later GET shows the requested rank, or the built-in default for null |
| `CommandRankLaws.SavedRankShown` | internal/api/handlers_command_ranks.go:183-238 | after a saved request any GET shows, for a command whose spellings agree, the rank asked for, one of the five, or for null the rank in the built-in table, or wizard for a command that is not in it |
| `CommandRankLaws.BuiltInRank` | internal/api/default_command_ranks.go:267-279 | the built-in rank under any case and padding: the table's rank of the name, else of the command it is an alias of, else wizard |
| `CommandRankLaws.BadNameIff` | internal/api/handlers_command_ranks.go:15-33 | a request is refused for its names if and only if one is neither in the table nor a letter followed by at most 47 letters, digits and underscores |
| `CommandRanks.PutElsewhere` | internal/api/handlers_command_ranks.go:226-238 | overrides of other commands, and what a GET may show of them, stay as they were |
| `CommandRanks.PutTwice` | internal/api/handlers_command_ranks.go:226-238 | repeating a PUT changes nothing |
| `CommandRanks.NormRequestDeterministic` | internal/api/handlers_command_ranks.go:183-193 | the normalized request depends on map order if and only if two spellings of one command ask for different ranks |
| `CommandRanks.PutDeterministic` | internal/api/handlers_command_ranks.go:183-238 | the answer of a PUT does not depend on map order if and only if a name is refused, or all spellings of some command ask for a rank out of range, or all ranks are in range and the spellings of each command agree once null and the built-in default count as the same |
| `CommandRanks.SavedRankAmbiguous` | internal/api/handlers_command_ranks.go:183-238 | a concrete request of which map order decides the rank that is saved |
| `CommandRanks.RefusalAmbiguous` | internal/api/handlers_command_ranks.go:183-208 | a concrete request of which map order decides whether it is refused |
| `CommandRanks.GetDeterministic` | internal/api/default_command_ranks.go:36-49 | a GET row is determined if and only if the command has its own override or its aliases' overrides agree |
| `CommandRanks.GetAmbiguous` | internal/api/default_command_ranks.go:36-49 | concrete overrides for which a GET may show either of two ranks |
| `CommandRanks.AliasesAreFlat` | internal/api/default_command_ranks.go:11-26 | no canonical name of the alias table is itself an alias |
| `Trivia.ParseTriviaLine` | internal/api/handlers_palace_preferences_extras.go:116-188 | the marker scan and the loop that fills answers by letter compute the parsed line of the specification |
| `Trivia.ParseTriviaQuestions` | internal/api/handlers_palace_preferences_extras.go:190-206 | questions in order, and the number of lines that are neither questions nor blank nor comments |
| `Trivia.RenderTriviaQuestions` | internal/api/handlers_palace_preferences_extras.go:245-266 | the two header lines and one line for each validated question |
| `Trivia.ValidateTriviaQuestions` | internal/api/handlers_palace_preferences_extras.go:268-296 | trimmed questions that all satisfy the rules, or the index and reason of the first that does not |
| `Trivia.MarkersMeaning` | internal/api/handlers_palace_preferences_extras.go:131-147 | the marker list holds every marker of the text, in order, and nothing else |
| `TriviaReadings.RestSays` | internal/api/handlers_palace_preferences_extras.go:124-187 | any text after Q. is read by its complete list of markers: the question before the first, for each letter the text of its last marker, the letter of the last star; it is refused if and only if fewer than two markers stand in it or something is missing |
| `TriviaReadings.LineSays` | internal/api/handlers_palace_preferences_extras.go:116-124 | a question line starts with Q. or q., whatever white space is around it |
| `TriviaReadings.LinesSay` | internal/api/handlers_palace_preferences_extras.go:190-206 | the questions of any file are those of its lines, in order, and the bad count is the number of other lines that are neither blank nor comments |
| `TriviaReadings.ValidationSays` | internal/api/handlers_palace_preferences_extras.go:268-296 | validation returns every question trimmed, or refuses the first with a fault, told by its fields, with its first fault |
| `TriviaLaws.RestMarkers` | internal/api/handlers_palace_preferences_extras.go:245-266 | the scan of a written line of marker-free fields finds exactly the four written markers; none straddles a field boundary |
| `TriviaFile.LineReadIff` | internal/api/handlers_palace_preferences_extras.go:116-188 | a written line reads back as its question if and only if no field holds a marker at its start or after white space |
| `TriviaFile.RoundTripIff` | internal/api/handlers_palace_preferences_extras.go:190-266 | a rendered file reads back as its questions with no bad line if and only if every field is free of line ends and of markers |
| `TriviaFile.RoundTripLoses` | internal/api/handlers_palace_preferences_extras.go:116-188 | a concrete valid question, whose text looks like an answer, that is not read back |
| `UpdateFlag.FlushingIsSafe` | internal/api/server.go:123-158 | with flushing writers, in every interleaving of any number of processes at most one is in the update section, and running is set exactly while one holds the flag |
| `UpdateFlag.ExclusiveIff` | internal/api/handlers.go:590-604 | mutual exclusion holds in every interleaving if and only if every writer flushes or at most one process can reach the update |
| `UpdateFlag.FlagShowsIff` | internal/api/handlers.go:590-604 | the flag is set whenever a process is updating if and only if every writer flushes or no process can reach the update |
| `UpdateFlag.TwoInside` | internal/api/handlers.go:590-604 | the run that breaks mutual exclusion, built for any process that leaves early and any two that do not |
| `UpdateFlag.DoneIsClear` | internal/api/handlers_pserver_selfservice.go:136-142 | whatever the writers, once every process is done the flag is clear and the mutex free |
| `UpdateFinish.CanFinish` | internal/api/handlers.go:590-604 | no interleaving gets stuck: from every reachable state, whatever the writers, there is a run in which every process comes to its end, with the flag clear |
| `AuditTail.AuditLog.Append` | internal/auditlog/auditlog.go:36-52 | adds the entry's line to the file |
| `AuditTail.AuditLog.ScanEntries` | internal/auditlog/auditlog.go:98-127 | the read loop returns the entries of the parsable lines, a last line without line end included |
| `AuditTail.AuditLog.ReadRecent` | internal/auditlog/auditlog.go:58-96 | the whole file when it fits the window, else what follows the first line end at or after size minus window |
| `AuditTail.FileScanned` | internal/auditlog/auditlog.go:98-127 | reading a file written only by appends gives back its history |
| `AuditTail.RecentIsSuffix` | internal/auditlog/auditlog.go:54-96 | a read returns the whole history when the file fits the window, and otherwise exactly the entries whose first byte lies strictly after size minus window |
| `AuditLines.FileRead` | internal/auditlog/auditlog.go:98-127 | on any file, the entries are those of the lines that decode, in order, broken and blank lines passed over, a last line without its end included |
| `AuditLines.SmallFileRead` | internal/auditlog/auditlog.go:58-96 | a file within the window is read from its first line |
| `AuditLines.LargeFileRead` | internal/auditlog/auditlog.go:80-90 | of a larger file the line that the window begins in is dropped and all later ones are read |
| `AuditLines.NoLineInWindow` | internal/auditlog/auditlog.go:80-90 | a larger file without a line end in the window gives nothing |
| `AuditQuery.HandleAuditLog` | internal/api/handlers_audit.go:12-100 | refuses by role and filters, and otherwise returns the newest matching entries of the tail, newest first, up to the limit |
| `AuditQuery.CollectNewest` | internal/api/handlers_audit.go:73-98 | the reverse loop with its limit computes the reversed last entries that match |
| `AuditQuery.TenantSeesOwn` | internal/api/handlers_audit.go:116-126 | a tenant is shown only entries of its own scope or about its own palaces, and never more than the limit |
| `AuditShown.AnswerMeaning` | internal/api/handlers_audit.go:73-98 | the answer's entries stand in the log at strictly descending places, each passes the palace, actor and tenant filters told by its fields, and none that passes is missing but those older than all shown once the limit is reached |
| `AuditShown.MayAskIff` | internal/api/handlers_audit.go:22-56 | admins may always ask; a tenant if and only if the tenant field is blank or its own name and the actor field is blank or one of its subaccounts; nobody else may |
| `AuditShown.LimitMeaning` | internal/api/handlers_audit.go:34-42 | a positive 64-bit integer inside white space is the limit, at most 2000; for any other text it is 200 |
| `AuditQuery.AnswerOverHistory` | internal/api/handlers_audit.go:58-98 | over a file written only by appends the answer is taken from a suffix of the history, the whole of it when the file fits the window |
| `Highlighter.NextToken` | web/public/js/pat-highlight.js:66-119 | one token: of its type's shape, and ending where the next character does not belong to it; a trailing backslash in an open string steps over the end and does no harm |
| `Highlighter.Tokenize` | web/public/js/pat-highlight.js:62-122 | the tokens' texts make up the script, each has the shape of its type and ends where the next one begins |
| `Highlighter.LexedUnique` | web/public/js/pat-highlight.js:62-122 | no other list of tokens does that, so the tokenizer's result is determined |
| `Highlighter.ColourOn` | web/public/js/pat-highlight.js:130-137 | an ON turns into an event word exactly when only white space separates it from an event name |
| `Highlighter.Annotate` | web/public/js/pat-highlight.js:129-207 | the type of every token afterwards, said of the token and its surroundings: a name is a word, string or number whose next brace opens at depth 0 or 1 with no event or control word since the brace before |
| `Highlighter.NamePending` | web/public/js/pat-highlight.js:148-165 | words before an opening brace become room names at depth 0 and section names at depth 1, unless they belong to an event handler |
| `HighlighterNames.NameTold` | web/public/js/pat-highlight.js:139-207 | a word, string or number between a brace, or the start, and the next opening brace is a room name outside every block and a section name inside one, told by nested blocks, unless an event name or control word is among the tokens between |
| `HighlighterNames.NoNameTold` | web/public/js/pat-highlight.js:139-207 | a token before a closing brace, or before no brace, keeps its type |
| `HighlighterNames.OnTold` | web/public/js/pat-highlight.js:130-137 | an ON turns into an event word before white space and an event name, and before nothing else |
| `HighlighterNames.HtmlTold` | web/public/js/pat-highlight.js:209-218 | a token of each coloured type is wrapped in a span of its colour around its escaped text, and white space is only escaped |
| `Highlighter.EscIsEach` | web/public/js/pat-highlight.js:57-60 | the three replacements in a row escape each character by itself |
| `Highlighter.HighlightPat` | web/public/js/pat-highlight.js:220-224 | for every text, stripping the tags of the highlighted HTML and undoing the escapes gives back the text, and the HTML is that of the text's only list of tokens, annotated |
| `TarWriter.WriteTarOctalField` | web/public/js/server-files.js:271-277 | the field holds the number in octal with a zero byte, cut or zero-filled to its length |
| `TarWriter.CreateTarArchiveSingle` | web/public/js/server-files.js:280-309 | refuses long names and otherwise returns header, data and zero padding, with the checksum taken over spaces |
| `TarWriter.ChecksumFits` | web/public/js/server-files.js:294-302 | the sum of 512 bytes always fits six octal digits and reads back |
| `TarWriter.ArchiveWellFormed` | web/public/js/server-files.js:280-309 | whole blocks, a size field that reads back as the data's length, the data at 512 followed by at least two zero blocks, and a checksum field of six digits, a zero byte and a space that reads back as the header's sum with that field as spaces; name, mode, time, type flag, magic and version in their places |

## Left out

- Unicode: trimming, upper-casing and lower-casing are ASCII; Go's and JavaScript's also treat other white space and letters.
- JSON text: values are parsed data, numbers that are not integers are one constructor, and object keys are matched exactly, where Go's decoder also matches struct fields without regard to case.
- The files themselves: reading, writing, renaming, quotas, size limits and UTF-8 checks; a store save is taken to succeed.
- bcrypt: a hash is a parameter that may fail.
- The raw mode of the prefs save, which writes the submitted text through the same announcement pass.
- The minimum length of passwords, which the handlers check before they call the store.
- Go slice aliasing: `List` and `Get` share inner slices with the store; records here are values.
- Authentication and routing of the HTTP handlers, server-sent events, DNS checks, proxies, systemd, nginx and the shell scripts: effects outside the code.
- The version, error and time stamps that the update jobs record beside the flag.
- The order of rows, the labels and the extra rows of the command-rank GET.
- Regex patching of unit files, version archiving, configuration defaults, version comparison: they would add only easy members.
- CommandRanks.HandlePut: an error names no command, because which one the source names depends on map order; the table of built-in ranks is a parameter.
- AuthStore.Store.CreateSubaccount: looking up the parent and appending are one step; the source drops its lock in between.
- Highlighter.Tokenize: characters are whole code points, where JavaScript counts two units for some; every character the tokenizer tests for is ASCII.
- TarWriter.CreateTarArchiveSingle: the name is given as its ASCII bytes, so that its length in characters and in bytes agree; the clock is a parameter.
- UpdateFlag.FlushingIsSafe: safety only; that a process is ever scheduled is not modelled.
- PatRoomReading.FirstRefsMeaning: strings are spelled as `pserver.prefs` quotes them, where other escapes read the same; bytes that the scanner ignores do not occur between tokens.
