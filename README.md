# chrome-extension helpers, modelled in Dafny

This project models the logic at the core of a small helper library for
Chrome extensions. The library's host calls (`chrome.runtime`, `chrome.tabs`,
`chrome.storage`, `chrome.alarms`, `chrome.commands`, `chrome.sidePanel`,
`chrome.identity`) are not modelled. What the host returns, or the order in
which its callbacks fire, is an input. The modelled parts are:

- **Messaging** (`messaging.dfy`). `ActionMessenger` is bound to one action
  string.
  - `broadcast` and `sendToTab` resolve or reject on `chrome.runtime.lastError`.
  - `sendToCurrentTab` returns `undefined` when there is no tab id.
  - `sendToAllTabs` fans out to every tab and gathers the replies. Its
    `pending` counter state machine is the class `FanOutGather`. The driver
    `SendToAllTabs` runs that class over an arbitrary order of reply callbacks.
  - The `catch` dispatcher decides, per handler outcome, what the listener
    returns, what it passes to `sendResponse` and what it logs.
- **Delivery** (`transport.dfy`). A small model of the host's relay rules. It
  is used only to state end-to-end properties of `catch` together with the
  senders.
- **Identity** (`identity.dfy`). Covers:
  - the defaults of the Google OAuth URL options;
  - the `response_type` mapping;
  - the fixed query-parameter order;
  - the conditional nonce;
  - the `getGoogleIdToken` control flow;
  - token extraction with the regular expression `/[#&]KEY=([^&]+)/`, modelled
    as a leftmost-match scan.
- **Storage** (`storage.dfy`). Covers:
  - the keyed projection of `getLocalData` / `getSyncData`, a loop proved
    against a map comprehension;
  - the zero-key pass-through;
  - `save*Data`;
  - the `LocalStorage` / `SyncStorage` delegation.
- **Alarms** (`alarm.dfy`). Covers:
  - the `alarmCallbacks` registry as a class;
  - the create-or-reset decision;
  - the replace rule for callbacks;
  - dispatch by alarm name.
- **Commands** (`on_command.dfy`). Covers:
  - the `registeredCommands` map of callback sets, and the host listeners it
    appends;
  - the duplicate/force rule;
  - the invariant that the registry and the listeners name the same
    (command, callback) pairs.
- **Debug flag** (`debug.dfy`). The module-level `_DEBUG` flag as a class,
  with the `DEBUG(arg?)` call.
- **Side panel** (`sidepanel.dfy`). Covers:
  - the option defaults;
  - which listeners `installSidePanel` installs;
  - the per-update enable/disable rule by origin, including its
    short-circuiting `some` and URL parse failures.

Shared modules:

- `wrappers.dfy`: `Option` and `Result`.
- `js.dfy`: the JavaScript semantics the helpers rely on. It covers values,
  truthiness and `??`. It also covers object-spread defaulting. Under object
  spread an explicitly `undefined` option overrides the default, so options
  are `Prop<T> = Omitted | Present(Option<T>)`.
- `host.dfy`: tabs, and callbacks compared by identity.

Host and library functions are passed in as values or function parameters:

- the tab list, `lastError` and responses;
- the active tab;
- the store contents a `get` returns;
- whether an alarm exists;
- the DEBUG flag object;
- `chrome.identity.getRedirectURL`;
- `encodeURIComponent`;
- `decodeURIComponent`, which may fail;
- `new URL(u).origin`, which may fail;
- the random nonce;
- `launchWebAuthFlow`, which may fail.

## Behaviour worth knowing

- **Rejected handler Promises.** A handler's rejected Promise is only logged,
  with `.catch(console.error)` (`src/events/messaging.ts:119`). The
  keep-alive `true` has already been returned, so no response value ever
  reaches the sender; unlike a synchronous throw, a rejection is never turned
  into `{error: ...}` (`Transport.RejectionUnanswered`, `Transport.ThrowIsData`).
  Under the relay rules below, a `sendToAllTabs` whose messages reach such a
  handler never settles (`Messaging.SendToAllTabs`).
- **`resetAlarm` with DEBUG off.** The option is documented as "reset the
  timer if the alarm already exists", default false (`src/alarm.ts:27-31`).
  The existing alarm is kept only when `resetAlarm` is falsy and DEBUG is on
  (`src/alarm.ts:61`), so with DEBUG off an existing alarm is always reset,
  whatever `resetAlarm` says (`Alarm.ResetRule`).
- **Explicit `undefined` options.** Options passed explicitly as `undefined`
  override the documented defaults, because of object spread. In
  `getGoogleOauthURL`:
  - `responseType: undefined` gives `response_type=id_token` but no nonce;
  - `scopes: undefined` throws in `join`.

  The model follows the code (`Identity.OAuthUrl`).

## Model

| member | source | states |
|---|---|---|
| `Messaging.ErrorText` | src/events/messaging.ts:126 | an error object's truthy `message`, otherwise the thrown value itself |
| `Messaging.ErrorResponse` | src/events/messaging.ts:126 | the answer to a throwing handler is an object whose only key is `error`, holding that error text |
| `Messaging.ActionMessenger.Wrap` | src/events/messaging.ts:18 | every outgoing envelope is `{action, data}`, with the messenger's own action and the payload unchanged |
| `Messaging.ActionMessenger.Settle` | src/events/messaging.ts:19-25 | the send callback rejects exactly when `lastError` is set, with that error; otherwise it resolves with the response unchanged |
| `Messaging.ActionMessenger.Broadcast` | src/events/messaging.ts:15-28 | exactly one runtime message carrying the envelope; rejects iff `lastError`, and otherwise resolves with the response |
| `Messaging.ActionMessenger.SendToTab` | src/events/messaging.ts:35-49 | exactly one message to the given tab carrying the envelope; rejects iff `lastError`, and otherwise resolves with the response |
| `Messaging.ActionMessenger.SendToCurrentTab` | src/events/messaging.ts:98-107 | with no active tab or no tab id nothing is sent and the result is `undefined`; otherwise the call is exactly `sendToTab(tab.id, payload)` |
| `Messaging.ActionMessenger.Catch` | src/events/messaging.ts:112-131 | for another action the listener neither calls the handler nor answers; for its own action the handler's outcome decides the reply |
| `Messaging.Respond` | src/events/messaging.ts:116-126 | a plain value is sent at once and the listener does not return `true`; a Promise returns `true` and sends its value later; a rejection is only logged and nothing is sent; a throw sends `{error: ...}` and logs; at most one response |
| `Messaging.TabList` | src/events/messaging.ts:63-64 | a null tab list is treated as empty |
| `Messaging.TabSendsTargets` | src/events/messaging.ts:68-77 | one message per tab that has an id, in tab order: the message for tab i comes right after those for the tabs before it and goes to that tab's id with the messenger's envelope; no other message is sent |
| `Messaging.FanOutGather.constructor` | src/events/messaging.ts:59-62 | the gather starts with no responses, no messages sent and the promise unresolved |
| `Messaging.FanOutGather.OnTabs` | src/events/messaging.ts:63-88 | a null or empty list resolves at once with `[]`; otherwise tabs without an id are counted down on the spot, the others are messaged, and `pending` equals the callbacks still owed, resolving iff it reaches 0 |
| `Messaging.FanOutGather.OnReply` | src/events/messaging.ts:78-86 | a reply callback decrements `pending` once, pushes the response iff there is no error and it is not `undefined`, and resolves exactly when `pending` reaches 0 |
| `Messaging.SendToAllTabs` | src/events/messaging.ts:59-91 | whatever order the reply callbacks fire in, each at most once: the accepted responses are gathered in completion order, only tabs with an id were messaged, and the promise resolves exactly once iff every messaged tab's callback fired, otherwise it stays pending; it never rejects |
| `Messaging.NoTabsNoMessages` | src/events/messaging.ts:64 | with a null or empty list no message is sent, no reply callback can fire, and the result is `[]` |
| `Messaging.CollectedAccepted` | src/events/messaging.ts:79-81 | the result never holds `undefined`, and a value is in it iff some reply without error carried it |
| `Messaging.GatherBound` | src/events/messaging.ts:66-85 | the result is no longer than the number of tabs with an id, which is at most the number of tabs |
| `Transport.RunAllShape` | src/events/messaging.ts:113-115 | in a context with several listeners, those for other actions ignore the envelope and those for this action all answer it |
| `Transport.DeliverAnswered` | src/events/messaging.ts:113-130 | listeners for other actions do not change what the sender receives |
| `Transport.SyncRoundTrip` | src/events/messaging.ts:121-123 | a handler's plain return value reaches the sender, whose promise resolves with it |
| `Transport.AsyncRoundTrip` | src/events/messaging.ts:118-120 | a handler's fulfilled Promise value reaches the sender, because the listener returned `true` |
| `Transport.ThrowIsData` | src/events/messaging.ts:124-126 | a synchronous throw makes the sender resolve, not reject, with `{error: ...}` |
| `Transport.RejectionUnanswered` | src/events/messaging.ts:119 | a rejected handler Promise is only logged: the channel stays open and the sender is never called back |
| `Transport.UnheardRejects` | src/events/messaging.ts:15-28 | with no listener for the action no handler runs and `broadcast` rejects |
| `Transport.KeepAliveNeeded` | src/events/messaging.ts:116-120 | a fulfilling handler's run returns `true` and its value reaches the sender; the same run without the `true` return relays the closed-port error instead |
| `Identity.Defaults` | src/identity.ts:32-37 | each option takes its default when omitted and the supplied value, `undefined` included, when present |
| `Identity.DefaultsApplied` | src/identity.ts:32-37 | no options means redirect path `undefined`, `id_token`, and scopes `profile`, `email`; supplied options override |
| `Identity.ResponseTypeParam` | src/identity.ts:39-40 | `response_type` is `token` iff the response type is `access_token`, and `id_token` otherwise |
| `Identity.OAuthUrl` | src/identity.ts:42-51 | the URL can be built exactly when the scopes are defined |
| `Identity.OAuthUrlShape` | src/identity.ts:42-51 | the URL is the fixed endpoint with `client_id`, `response_type`, `redirect_uri` and `scope` in that order, plus `nonce` iff the type is `id_token`; scope is the space-joined scopes, encoded |
| `Identity.DefaultUrl` | src/identity.ts:32-51 | with no options the URL requests an id token for `profile email` and carries a nonce |
| `Identity.RunEnd` | src/identity.ts:92 | `[^&]+` is greedy: the run stops at the first `&` or at the end of the input |
| `Identity.FindMatch` | src/identity.ts:92 | finds the leftmost position where `[#&]KEY=` is followed by a character other than `&`, or reports that there is none |
| `Identity.Capture` | src/identity.ts:92 | no capture iff the pattern matches nowhere; otherwise the capture is the non-empty, `&`-free run after the leftmost match |
| `Identity.ExtractToken` | src/identity.ts:92-93 | `undefined` iff there is no match; otherwise the decoded capture, or the decoder's error |
| `Identity.ExtractIdToken` | src/identity.ts:91-94 | `undefined` iff no `#id_token=` or `&id_token=` is followed by a character other than `&` |
| `Identity.ExtractAccessToken` | src/identity.ts:99-102 | the same contract for `access_token` |
| `Identity.FragmentToken` | src/identity.ts:92 | for a redirect `URL#KEY=TOKEN[&...]` whose URL part has no `#` or `&`, the capture is exactly TOKEN |
| `Identity.ExtractIdTokenFromFragment` | src/identity.ts:91-94 | on that shape `extractIdToken` returns the decoded token |
| `Identity.IdTokenUrlOptions` | src/identity.ts:74-77 | `getGoogleIdToken` always asks for `id_token` and passes the other options through |
| `Identity.LaunchWebAuthFlow` | src/identity.ts:60-65 | the flow is started on the given URL, interactively |
| `Identity.GoogleIdToken` | src/identity.ts:70-86 | undefined scopes reject with the `join` TypeError; otherwise a rejection can only come from decoding the token of a non-empty flow result, so a throwing flow never rejects |
| `Identity.GoogleIdTokenFlow` | src/identity.ts:70-86 | the flow starts from an id-token URL with a nonce; a throwing flow or an empty result gives `undefined`; otherwise the result is `extractIdToken(result)` |
| `Identity.GoogleIdTokenUndefinedScopes` | src/identity.ts:74-77 | explicitly `undefined` scopes reject before any flow starts |
| `Storage.Query` | src/storage.ts:13 | the host is asked for `null` (every key) iff no key is given, and otherwise for the keys |
| `Storage.Lookup` | src/storage.ts:19 | `result[k] ?? null`: a missing, `null` or `undefined` value reads as `null`, anything else as itself |
| `Storage.Project` | src/storage.ts:18-20 | the `forEach` loop builds exactly the projection of the result onto the requested keys |
| `Storage.ProjectionContents` | src/storage.ts:18-20 | the keys of the result are exactly the requested keys, duplicates collapsing; each maps to its stored value or to `null`, never `undefined` |
| `Storage.ProjectionDuplicates` | src/storage.ts:19 | requesting a key twice gives the same result as once |
| `Storage.GetData` | src/storage.ts:12-23 | with no keys the host's full result is returned unchanged; with keys, the projection |
| `Storage.GetLocalData` | src/storage.ts:2-24 | the local variant: queries the local area, same projection |
| `Storage.GetSyncData` | src/storage.ts:34-56 | the sync variant: queries the sync area, same projection |
| `Storage.SaveData` | src/storage.ts:26-32 | the data reaches the host's `set` unchanged, in the chosen area |
| `Storage.SaveLocalData` | src/storage.ts:26-32 | `saveLocalData` is the shared save on the local area |
| `Storage.SaveSyncData` | src/storage.ts:58-64 | `saveSyncData` is the shared save on the sync area |
| `Storage.LocalStorage.Get` | src/storage.ts:84-96 | with no keys, the zero-key helper; with keys, the keyed helper, on the local area |
| `Storage.LocalStorage.Set` | src/storage.ts:98-100 | passes the data to the local `set` unchanged |
| `Storage.SyncStorage.Get` | src/storage.ts:104-116 | the same on the sync area |
| `Storage.SyncStorage.Set` | src/storage.ts:118-120 | passes the data to the sync `set` unchanged |
| `Storage.SaveThenGet` | src/storage.ts:14-19 | under the host-store model (a merging `set` that drops `undefined` entries), reading saved keys back gives exactly the saved values, and keys not saved or saved as `undefined` read as before |
| `Debug.DebugFlag.constructor` | src/debug.ts:1 | the flag starts off |
| `Debug.DebugFlag.Debug` | src/debug.ts:3-14 | no argument returns the flag; a boolean sets it; a string is logged iff the flag is on and leaves it unchanged |
| `Debug.Step` | src/debug.ts:7-8 | only a boolean argument changes the flag |
| `Debug.ReplayIsLastBool` | src/debug.ts:3-14 | after any sequence of calls the flag is the last boolean given, or false if none was |
| `Debug.RunCalls` | src/debug.ts:1-14 | running the calls on a fresh flag leaves it as the value model predicts |
| `Alarm.Defaults` | src/alarm.ts:53-58 | each option takes its default when omitted and the supplied value when present |
| `Alarm.DefaultsApplied` | src/alarm.ts:53-58 | no options means no reset, a 10-minute period, and replacing the callback |
| `Alarm.ShouldCreate` | src/alarm.ts:60-70 | a missing alarm is always created; an existing one is recreated unless `resetAlarm` is falsy and DEBUG is on |
| `Alarm.ResetRule` | src/alarm.ts:60-67 | with DEBUG off an alarm is always reset; it is kept only if it exists, DEBUG is on and `resetAlarm` is not true |
| `Alarm.StoreCallback` | src/alarm.ts:78-80 | the new callback is stored iff none was there or `replaceCallback` is truthy; other names keep their entries |
| `Alarm.Dispatch` | src/alarm.ts:10-19 | only the callback registered under the alarm's name runs, none if there is none; a failure is caught and logged |
| `Alarm.StoreThenDispatch` | src/alarm.ts:78-80 | after `createAlarm`, the alarm of that name runs the new callback unless the old one was kept; other alarms dispatch as before |
| `Alarm.AlarmRegistry.constructor` | src/alarm.ts:3 | the registry starts empty and no alarm has been created |
| `Alarm.AlarmRegistry.CreateAlarm` | src/alarm.ts:48-81 | at most one host `create` with the resolved period, exactly when the decision says so; the registry updated by the replace rule |
| `Alarm.AlarmRegistry.OnAlarm` | src/alarm.ts:6-21 | the listener invokes exactly the registered callback for that name, and logs only that callback's failure |
| `OnCommand.Force` | src/events/onCommand.ts:19-22 | `force` defaults to false; a supplied value overrides it |
| `OnCommand.Registered` | src/events/onCommand.ts:23 | the callbacks for a command, or the empty set if it has none |
| `OnCommand.DuplicateMessage` | src/events/onCommand.ts:27-29 | the duplicate-registration error quotes the command name at a fixed place in a fixed text, so it tells commands apart |
| `OnCommand.Fired` | src/events/onCommand.ts:40-45 | each host listener calls at most one callback per command fired |
| `OnCommand.FiredAppend` | src/events/onCommand.ts:40-45 | each new listener adds its callback at the end of the calls for its own command, and nothing for others |
| `OnCommand.FiredMembership` | src/events/onCommand.ts:40-45 | a callback fires for a command iff some listener pairs them |
| `OnCommand.FiredAreRegistered` | src/events/onCommand.ts:37-45 | when registry and listeners agree, the callbacks a command fires are exactly those registered for it |
| `OnCommand.ForcedRegistrationFiresTwice` | src/events/onCommand.ts:30-45 | a forced re-registration adds a second listener, so the callback then fires twice per command |
| `OnCommand.CommandRegistry.constructor` | src/events/onCommand.ts:12 | the map starts empty, with no listener |
| `OnCommand.CommandRegistry.AddOnCommandListener` | src/events/onCommand.ts:14-46 | a duplicate without truthy `force` throws the exact message and changes nothing; otherwise the set gains the callback once, other commands are unchanged, and exactly one listener is appended; registry and listeners stay in agreement |
| `OnCommand.CommandRegistry.Fire` | src/events/onCommand.ts:40-45 | a command fires exactly its registered callbacks |
| `SidePanel.Defaults` | src/sidepanel.ts:52-57 | each option takes its default when omitted and the supplied value when present |
| `SidePanel.DefaultsApplied` | src/sidepanel.ts:52-57 | no options means no filter, no action and the default panel page |
| `SidePanel.Install` | src/sidepanel.ts:59-67 | the action-click listener is installed iff `action` is true; the update listener iff the filter is defined and non-empty, capturing filter and location |
| `SidePanel.NothingByDefault` | src/sidepanel.ts:52-67 | with no options neither listener is installed |
| `SidePanel.OnActionClicked` | src/sidepanel.ts:61-64 | a click opens the panel on the tab iff the tab has an id |
| `SidePanel.SomeSameOrigin` | src/sidepanel.ts:72 | a true result names an entry with the tab's origin, and a throw is the parse error of some entry |
| `SidePanel.SomeSameOriginSpec` | src/sidepanel.ts:72 | the short-circuit `some` finds a match iff an entry has the tab's origin and all earlier entries parse; it is false iff all entries parse and differ |
| `SidePanel.OnUpdated` | src/sidepanel.ts:68-84 | an update without a URL does nothing |
| `SidePanel.EnableRule` | src/sidepanel.ts:72-83 | where all URLs parse, the panel is enabled at the configured path iff some filter entry shares the tab's origin, else disabled with no path |
| `SidePanel.BadTabUrlThrows` | src/sidepanel.ts:70 | a tab URL that does not parse makes the listener throw |

## Left out

- Promise scheduling and concurrency. Callback completions and handler
  outcomes are explicit inputs or datatypes. Two `createAlarm` or
  `sendToAllTabs` calls interleaving across `await`s are not modelled.
- The host's message relay (`transport.dfy`) is an assumption about Chrome,
  not code of the library:
  - every listener runs once, in registration order;
  - the first `sendResponse` wins;
  - a later response needs a `true` return;
  - a channel kept open with `true` that nobody answers never calls the
    sender back;
  - a context with no listener, or whose listeners all returned without
    answering or keeping the channel open, reports an error.
- `Messaging.SendToAllTabs`: the reply callbacks are an input, each firing at
  most once and only for a messaged tab (its `requires`, a host assumption).
  Whether a callback ever fires is part of that input, so the relay rule
  above that leaves an open channel unanswered is covered by the pending
  outcome.
- `instanceof Promise`: a handler's result is given as an outcome. A thenable
  that is not a `Promise` is therefore a plain value, as in the code.
- Console logging, the `getDate()` locale time and the `DEBUG(...)` log calls
  inside `onCommand` and `onAlarm`. The exceptions are the logged-versus-sent
  distinction in `catch`, caught alarm failures, and the log of `DEBUG(s)`
  itself.
- `getCurrentTab` is not part of this model. The active tab is an input.
- `getRedirectURL`, `encodeURIComponent`, `decodeURIComponent`,
  `new URL(...).origin` and `launchWebAuthFlow` are host or library
  functions. They are passed in, so percent-encoding and URL parsing are not
  modelled.
- The nonce `Math.random().toString(36).substring(2)` is an arbitrary input
  string.
- Numbers: JS numbers in messages are integers in the model.
  `periodInMinutes` is a `real` passed through unvalidated.
- `Storage.Lookup`, `Storage.ProjectionContents` and `Storage.Project`: the
  host's result is a plain object, so `result[k] ?? null` reads names
  inherited from `Object.prototype` (`getLocalData('toString')` on an empty
  store gives the inherited function, not `null`), and assigning
  `mapped['__proto__']` sets the prototype instead of creating a key. The
  model's records are maps, so a missing key always reads as `null` and the
  result's keys are exactly the requested ones.
- `Storage.SaveThenGet`: that `chrome.storage` drops entries whose value is
  `undefined`, leaving the stored value, is an assumption about the host
  (`Storage.ApplySet`).
- `Alarm.StoreCallback`: `alarmCallbacks` is a plain record, and names
  inherited from `Object.prototype` (for example `toString`) read as truthy
  there. The model is a map, so it does not capture that.
- `installSidePanel` registers its listeners with the host. The model returns
  what is registered as an `Installation` value, rather than mutating host
  listener lists. The update listener reads `_options.filter`, which is the
  caller's own array, when each update arrives; the model's `UpdateRule`
  copies the filter at installation, so later changes to that array
  (including emptying it) are not seen.
- `chrome.sidePanel.open` failures (caught and logged) and the `tab` argument
  passed to command callbacks.
- `src/OffscreenManager.ts`, `src/offscreen.ts`, `src/misc.ts`,
  `src/notifications.ts`, `src/events/onStartup.ts`,
  `src/events/onInstalled.ts` and `src/events/onActionClicked.ts`. They are
  host pass-through wrappers with no logic of their own.
