# Paste store: a Dafny model of the PasteApp paste slice

PasteApp is a client-side paste manager. Its whole state lives in one
Redux slice, `src/Redux/pasteSlice.js`. The slice holds an ordered list of
paste records `{_id, title, content, createdAt}` and has four reducers:
`addPaste`, `removePaste`, `updatePaste` and `resetPastes`. After
`addPaste`, and after a `removePaste` or `updatePaste` that finds its id,
the reducer writes the whole list to the local-storage key `"pastes"`;
`resetPastes` deletes that key instead. Each reducer also raises a success
toast, an error toast, or none.

This project models that slice in two modules:

- `PasteSlice` (`paste_slice.dfy`) holds the data model: `Paste`, `Toast` and
  the four toast messages. It holds `FindIndex` and `Find`, which are
  `Array.prototype.findIndex` and `Array.prototype.find` for "has this id".
  It holds `Removed` and `Updated`, the pure effect of the two id-directed
  reducers on the list. It holds the class `PasteStore`, whose fields are
  the in-memory list `pastes`, the storage slot `storage` and the toast log
  `toasts`. The constructor is `initialState`, and the four methods are the
  four reducers. `Valid()` says that loading the slot afresh gives back the
  in-memory list. The constructor and every reducer keep it true, including
  `resetPastes`: an absent slot loads as the empty list.
- `PasteProperties` (`paste_properties.dfy`) holds facts that need more than
  one operation, or need ids to be distinct. `addPaste` never checks for a
  duplicate id, so distinct ids are an invariant only while callers pass
  fresh ids. The lemmas show which reducers keep ids distinct and under
  what condition. They also show what a later lookup returns. Two client
  methods are verified against the reducers' contracts: `NotFoundDiffers`
  shows that a missing id gives one error toast from update and no toast
  from remove. `Scenario` steps through create, edit, delete, edit on a
  missing id, another create, reset, and then a fresh load.

The storage slot is `Option<seq<Paste>>`. `None` means the key is absent,
and `Some(s)` means the key holds the list `s`. JSON serialisation and
parsing are treated as the identity.

## Model

| member | source | states |
|---|---|---|
| PasteSlice.FindIndex | src/Redux/pasteSlice.js:23 | returns -1 exactly when no record has the id; otherwise returns a matching position with no match before it |
| PasteSlice.FindIndexIsFirstMatch | src/Redux/pasteSlice.js:32 | the first matching position is unique, so it is the value `findIndex` returns |
| PasteSlice.Find | src/components/ViewPaste.jsx:9 | returns nothing exactly when no record has the id; otherwise returns the record at the first matching position |
| PasteSlice.Removed | src/Redux/pasteSlice.js:23-25 | with no match the list is unchanged; with a match it is one shorter, and it is the list with exactly the first matching record spliced out, the rest in their order |
| PasteSlice.Updated | src/Redux/pasteSlice.js:32-34 | the length never changes; with no match the list is unchanged; with a match only the first matching position changes, and it now holds the new record |
| PasteSlice.PasteStore.constructor | src/Redux/pasteSlice.js:4-8 | starts with the stored list if the slot is present, with the empty list otherwise; no toasts; memory and storage agree |
| PasteSlice.PasteStore.AddPaste | src/Redux/pasteSlice.js:14-19 | the record is appended with no duplicate check: length + 1, the new record last, earlier records unchanged; the slot holds the new list; one "created" success toast |
| PasteSlice.PasteStore.RemovePaste | src/Redux/pasteSlice.js:20-29 | the list becomes `Removed(old list, id)`; if found, length - 1, the slot holds the new list, and one "deleted" success toast; if not found, list, slot and toasts are all unchanged; memory and storage still agree |
| PasteSlice.PasteStore.UpdatePaste | src/Redux/pasteSlice.js:30-40 | the list becomes `Updated(old list, paste)` at the same length; if found, the slot holds the new list and one "updated" success toast; if not found, list and slot are unchanged and one "Paste not found" error toast; memory and storage still agree |
| PasteSlice.PasteStore.ResetPastes | src/Redux/pasteSlice.js:41-44 | the list becomes empty and the slot becomes absent (the key is removed, not set to an empty list); no toast; memory and storage agree |
| PasteProperties.AddKeepsUniqueIds | src/Redux/pasteSlice.js:14-16 | if ids were distinct, appending keeps them distinct exactly when the new id is not already used |
| PasteProperties.AddThenFind | src/Redux/pasteSlice.js:16 | after an append, a lookup by the new id returns the new record if the id was fresh, and the earlier record with that id if it was not |
| PasteProperties.RemoveKeepsUniqueIds | src/Redux/pasteSlice.js:23-25 | if ids are distinct, removal keeps them distinct and leaves no record with the removed id |
| PasteProperties.RemovedMultiset | src/Redux/pasteSlice.js:25 | when the id is present, the records after removal plus the first matching record make up the original multiset of records |
| PasteProperties.UpdateKeepsUniqueIds | src/Redux/pasteSlice.js:32-34 | an update keeps distinct ids distinct, because the new record has the id of the record it replaces |
| PasteProperties.UpdateThenFind | src/Redux/pasteSlice.js:32-34 | after an update whose id is present, a lookup by that id returns the new record |

## Left out

- React components (`Paste.jsx`, `Home.jsx`, `ViewPaste.jsx`, `Navbar.jsx`): these are rendering, routing, loading and debounce timers, and clipboard access. They hold no store logic. `Find` models only the lookup the views do with `find`.
- Share-link construction in `Paste.jsx`: it uses `window.location`, `encodeURIComponent` and `window.open`, which are browser calls.
- Date formatting: it uses `Date` and `toLocaleDateString`, which depend on the locale.
- The title search filter in `Paste.jsx`: it depends on Unicode `toLowerCase` and lives inside a component.
- Id generation with `Date.now().toString(36)` and the non-empty check with `trim` in `Home.jsx`: these are clock-dependent UI code. Ids are passed in as part of the record.
- Real `localStorage` I/O and `JSON.stringify`/`JSON.parse`: storage is one field, and serialisation is the identity. So the model cannot show a malformed stored value. The source does not handle one either: `JSON.parse` would throw.
- PasteSlice.PasteStore.constructor: the source tests the stored string for truthiness, so an empty string would also start with an empty list. The model has no stored strings, and the reducers only ever write a serialised array, which is never empty. So "present" is `Some`.
- A failing `setItem` (for example, quota exceeded): the source does not catch it, and the model's storage writes always succeed.
- `console.log(pasteId)` in `removePaste`: it is diagnostic output with no effect on state.
- Toast rendering and timing, the Redux Toolkit and Immer machinery (a reducer's draft is modelled as direct mutation of the store), and two tabs writing the same key at once (the source does not handle this).
- Update and `createdAt`: some descriptions of the app say `createdAt` never changes on update. The reducer replaces the whole record, and `Home.jsx` builds the update with a new `createdAt`. The model follows the code: `Updated` puts the supplied record in whole.
