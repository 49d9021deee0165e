# Dependent references of service messages

A model of how Telegram Desktop's `HistoryService` selects the message that
a service message depends on, and whether that dependency is settled. Examples of service messages are
"X pinned a message", "game score" and "payment sent".

A service item may carry any subset of three runtime components: Pinned,
GameScore and Payment. Each embeds `HistoryServiceDependentData`, which holds:

- the id of the referenced message (`msgId`, 0 for none);
- a non-owning pointer to that message, non-null once resolved (`msg`).

The model covers these parts of the source:

- The non-const `GetDependentData` picks one component by a fixed priority:
  Pinned, then GameScore, then Payment.
- The const overload reads the data of the component that the non-const
  overload selects.
- `dependencyMsgId` reports the selected component's `msgId`, or 0.
- `notificationReady` says whether the reference is settled.
- `needCheck` and `serviceMsg` are constant.

Everything is pure: datatypes, functions and lemmas in module
`HistoryService` (`history_service.dfy`). `Option` lives in module
`Wrappers` (`wrappers.dfy`).

Modelling choices:

- The `HistoryItem *msg` pointer is `Option<ItemId>`. It is a non-owning
  reference by id, and `None` is the null pointer.
- The pointer returned by the non-const `GetDependentData` is
  `Option<ComponentKind>`. It names the component the pointer addresses.
- A write through that pointer is the helper `WriteDependent`.
- The default initializers of the components are modelled as `NewPinned`,
  `NewGameScore` and `NewPayment`.
- `FirstPresent` is an independent reference definition of "first attached
  component in a priority list". The hand-written if/else chain is proved
  equal to it over `PriorityOrder`.

## Model

| member | source | states |
|---|---|---|
| `HistoryService.GetDependentData` | Telegram/SourceFiles/history/history_service.h:124-133 | Pinned, when attached, is chosen whatever else is attached. Without Pinned, GameScore is chosen even when Payment is attached. Payment is chosen only when it is the sole component. The result is null exactly when no component is attached, and a non-null result names an attached component. |
| `HistoryService.GetDependentDataConst` | Telegram/SourceFiles/history/history_service.h:134-136 | The const overload is null exactly when the non-const one is. Otherwise it yields the dependent data of the same component that the non-const overload selects. |
| `HistoryService.DependencyMsgId` | Telegram/SourceFiles/history/history_service.h:59-64 | The result is the `msgId` of the highest-priority attached component (Pinned, then GameScore, then Payment), and 0 when no component is attached. |
| `HistoryService.NotificationReady` | Telegram/SourceFiles/history/history_service.h:65-70 | An item with no dependent data is always ready. An item is not ready exactly when its selected data refers to a nonzero id whose pointer is still null. |
| `HistoryService.NeedCheck` | Telegram/SourceFiles/history/history_service.h:90-92 | A service item never needs a delivery check. |
| `HistoryService.ServiceMsg` | Telegram/SourceFiles/history/history_service.h:93-95 | Every service item reports itself as a service message. |
| `HistoryService.FirstPresent` | Telegram/SourceFiles/history/history_service.h:124-133 | This is the reference definition of a priority choice. The result is none exactly when no kind in the order is attached. Otherwise the result is an attached kind taken from the order. |
| `HistoryService.FirstPresentPrecedes` | Telegram/SourceFiles/history/history_service.h:124-133 | No attached component is passed over. If the kind at position j of the order is attached, the choice is among the first j + 1 kinds, so no attached kind comes before the one chosen. |
| `HistoryService.GetDependentDataIsFirstPresent` | Telegram/SourceFiles/history/history_service.h:124-133 | For every item, the if/else chain selects the same component as the reference definition over the order Pinned, GameScore, Payment. |
| `HistoryService.ReadyIffNoIdOrResolved` | Telegram/SourceFiles/history/history_service.h:59-70 | `notificationReady` holds exactly when `dependencyMsgId` is 0 or the selected reference is resolved. |
| `HistoryService.NotReadyHasDependency` | Telegram/SourceFiles/history/history_service.h:59-70 | An item that is not ready has a dependent component and a nonzero `dependencyMsgId`. |
| `HistoryService.FreshComponentsAreReady` | Telegram/SourceFiles/history/history_service.h:23-38 | Components as constructed have `msgId = 0` and a null `msg`. An item whose attached components are all fresh is therefore ready and has `dependencyMsgId` 0. |
| `HistoryService.WriteDependent` | Telegram/SourceFiles/history/history_service.h:124-133 | A write through the pointer to component k sets that component's dependent data to the written value. It leaves every other component's dependent data unchanged, and no component's score or amount changes. The same components stay attached. |
| `HistoryService.WriteThroughSelected` | Telegram/SourceFiles/history/history_service.h:124-133 | Writing data through the pointer that the non-const overload returns keeps the same component selected. Afterwards the item reports the written `msgId`, and it is ready exactly when the written reference is resolved or its id is 0. |
| `HistoryService.WriteToShadowedIsInvisible` | Telegram/SourceFiles/history/history_service.h:124-136 | Writing into a component that a higher-priority one shadows leaves the selected data, `dependencyMsgId` and `notificationReady` unchanged. |

## Left out

- `MsgId` is a 32-bit integer in the application. It is modelled as an unbounded `int` because nothing here does arithmetic on it.
- `lnk` (`ClickHandlerPtr`) is left out of the dependent data because it is a UI click handler with no logic here. `score` and `amount` are kept as opaque payload.
- `updateDependencyItem`, `updateDependent`, `updateDependentText` and `clearDependency` are declared without bodies. How a reference gets resolved is therefore not modelled. Only a write through the selected pointer is, as `WriteDependent`.
- `draw`, `hasPoint`, `getState`, `countGeometry`, `clickHandler*Changed`, `applyEdition`, `addToOverview`, `eraseFromOverview`, `selectedText`, `inDialogsText`, `inReplyText`, `initDimensions`, `resizeContentGetHeight`, `setServiceText`, `removeMedia`, `createFromMtp`, `setMessageByAction` and the `prepare*Text` functions are declared without bodies. They depend on painting, text layout or the MTP schema.
- `adjustSelection` only delegates to the external text-layout library.
- `fromLinkText` and `fromLink` format links over foreign types.
- `create`, `_create`, the constructors and the `RuntimeComponent` / `HistoryItemInstantiated` machinery are allocation and registration plumbing.
- Apart from the `create` plumbing listed above, `HistoryJoined` has only declared members (`GenerateText`, a constructor), so it is not modelled.
- `AdminLog::InnerWidget` (history_admin_log_inner.h) is a Qt widget. Its item window, preloading, mouse selection and scroll-date overlay are declared without bodies, so a model of them could not be checked against code.
