# Template gallery core: task reorder, route guard, planning view state

This project models the three pieces of application logic in the
DevExtreme UI template gallery. Each piece comes from one framework
package:

- **Task card (Angular).** The card keeps the tasks that have both a status
  and a priority. It shows a loading panel while its `tasks` input is unset; an empty
  list still counts as a value, so the card can show no tasks and no
  loading panel, and an unset input keeps the old list behind the panel. A drag
  and drop moves the dragged task onto the row it was dropped on, with two
  `splice` calls.
- **Router (Vue).** Routes for the application pages are generated from a
  descriptor table. Each gets the path `/name` (or `/file`) and the component
  `folder/name/name/file`, with absent parts dropped. The four account
  routes are public. A `beforeEach` guard sends logged-out users who open a
  protected page to the login form, and sends logged-in users away from it.
- **Planning task list (React).** The page holds the selected view (list,
  kanban board or gantt), the mirrored tab index, a loading flag and the
  popup flag. Which widget is rendered, where refresh and PDF export go,
  and which toolbar items are disabled all follow from these.

Files:

- `js_builtins.dfy` (module `JsBuiltins`) gives exact meanings to the
  JavaScript built-ins these pieces use: `indexOf`/`findIndex`, `splice`
  with its negative-start rule, `filter(Boolean)`, `join` and its inverse,
  string truthiness and `${undefined}`.
- `card_tasks.dfy`, `router.dfy` and `planning_task_list.dfy` hold one
  module per source file.
- State that the source updates in place is a class with methods:
  `CardTasksComponent` and `PlanningTaskList`. The guard is the
  module-level method `BeforeEach`, which returns the sequence of its
  `next` calls.
- The pure parts are functions, with lemmas about them.

Behaviour worth knowing, as the code has it:

- The guard has no early `return`. A logged-in user opening the login form
  gets `next({name: 'home'})` and then a second `next()`. The model records
  both calls (`GuardLoginFormTwice`). The three-way reading "home / login /
  allow" is true of the FIRST call only (`GuardFirstCallDecides`), and that
  is the call vue-router acts on.
- A dragged task that is not in the list is not a no-op. `indexOf` gives -1,
  and `splice(-1, 1)` removes the last task; the dragged task is then
  inserted (`ReorderAbsentItem`). `ReorderPermutes` requires only the
  dragged task to be in the list; `ReorderMovesItem` and `ReorderSameRow`
  require both the dragged task and the target row. That the grid only
  drops rows of its own data source is an assumption about the card's
  template, which is not part of this model.

## Model

| member | source | states |
|---|---|---|
| `JsBuiltins.Truthy` | packages/angular/src/app/shared/components/card-tasks/card-tasks.component.ts:35 | a possibly-undefined string is truthy exactly when it is present and not empty |
| `JsBuiltins.Or` | packages/vue/src/router.ts:68 | `a || b` is the left operand when it is truthy and the right operand otherwise, and truthy exactly when either operand is |
| `JsBuiltins.Interpolate` | packages/vue/src/router.ts:68 | `${v}` is the string itself when present, and "undefined" otherwise, so it is empty only for the empty string |
| `JsBuiltins.IndexOf` | packages/angular/src/app/shared/components/card-tasks/card-tasks.component.ts:41-42 | the result is -1 exactly when the value is absent; otherwise it is the first position holding the value |
| `JsBuiltins.RelativeStart` | packages/angular/src/app/shared/components/card-tasks/card-tasks.component.ts:44-45 | the position `splice` acts on stays within the array; a start in range is kept; a negative start counts back from the end |
| `JsBuiltins.SpliceRemoveOne` | packages/angular/src/app/shared/components/card-tasks/card-tasks.component.ts:44 | `splice(start, 1)` takes out exactly the element at the resolved position (multiset minus that element), or changes nothing past the end |
| `JsBuiltins.SpliceInsertOne` | packages/angular/src/app/shared/components/card-tasks/card-tasks.component.ts:45 | `splice(start, 0, x)` grows the array by one, with `x` at the resolved position and the old array around it |
| `JsBuiltins.RemoveAt` | packages/angular/src/app/shared/components/card-tasks/card-tasks.component.ts:44 | taking out position `i` shortens the array by one, keeps the elements before `i`, and shifts the ones after it down by one |
| `JsBuiltins.SpliceRemoveFirst` | packages/angular/src/app/shared/components/card-tasks/card-tasks.component.ts:44 | `splice(0, 1)` on a non-empty array drops its first element |
| `JsBuiltins.SpliceInsertAtEnd` | packages/angular/src/app/shared/components/card-tasks/card-tasks.component.ts:45 | `splice(length, 0, x)` appends `x` |
| `JsBuiltins.TruthyValues` | packages/vue/src/router.ts:73 | `filter(Boolean)` keeps every truthy value of the input, every value it returns is a truthy value of the input, it returns only non-empty strings and never grows the list |
| `JsBuiltins.TruthyValueOfIndex` | packages/vue/src/router.ts:73 | a value the filter may return sits, truthy, at some position of the input |
| `JsBuiltins.TruthyValuesSingle` | packages/vue/src/router.ts:73 | a single value is kept exactly when it is truthy |
| `JsBuiltins.TruthyValuesAppend` | packages/vue/src/router.ts:73 | filtering a concatenation concatenates the filtered parts, so the input order is kept; with the one-value case this fixes the result completely |
| `JsBuiltins.Join` | packages/vue/src/router.ts:73 | joining no pieces gives the empty string; otherwise the joined string starts with the first piece |
| `JsBuiltins.SplitJoin` | packages/vue/src/router.ts:73 | splitting a non-empty `/`-joined list gives the list back when no piece contains `/` |
| `JsBuiltins.JoinSplit` | packages/vue/src/router.ts:73 | joining the pieces of a split restores the string |
| `CardTasks.CompleteTasks` | packages/angular/src/app/shared/components/card-tasks/card-tasks.component.ts:35 | a task is kept exactly when it is in the input and has a truthy status and priority; the result is no longer than the input |
| `CardTasks.CompleteTasksAppend` | packages/angular/src/app/shared/components/card-tasks/card-tasks.component.ts:35 | filtering a concatenation concatenates the filtered parts, so input order is kept |
| `CardTasks.CompleteTasksSingle` | packages/angular/src/app/shared/components/card-tasks/card-tasks.component.ts:35 | a single task is kept exactly when it has a status and a priority |
| `CardTasks.CompleteTasksIdempotent` | packages/angular/src/app/shared/components/card-tasks/card-tasks.component.ts:35 | filtering twice is filtering once |
| `CardTasks.Reorder` | packages/angular/src/app/shared/components/card-tasks/card-tasks.component.ts:41-45 | the dragged task is always in the new list, which has the old length, except that a drop on an empty list leaves just the dragged task |
| `CardTasks.ReorderPermutes` | packages/angular/src/app/shared/components/card-tasks/card-tasks.component.ts:41-45 | when the dragged task is in the list, the drop keeps the length and the multiset of tasks |
| `CardTasks.ReorderMovesItem` | packages/angular/src/app/shared/components/card-tasks/card-tasks.component.ts:41-45 | with both rows present, the dragged task lands at the target's position as it was before the move; without that position, the new list equals the old list without the dragged task's position, so the other tasks keep their relative order |
| `CardTasks.ReorderSameRow` | packages/angular/src/app/shared/components/card-tasks/card-tasks.component.ts:41-45 | with the dragged task present and dropped on a row at its own position (`fromIndex == toIndex`), the list is unchanged |
| `CardTasks.ReorderExample` | packages/angular/src/app/shared/components/card-tasks/card-tasks.component.ts:41-45 | `[A, B, C]`, drag A onto C, gives `[B, C, A]` |
| `CardTasks.ReorderAbsentItem` | packages/angular/src/app/shared/components/card-tasks/card-tasks.component.ts:42-44 | for a dragged task that is not in a non-empty list, the length is unchanged, the last task is replaced by the dragged one in the multiset, and it is lost unless it also occurs earlier |
| `CardTasks.CardTasksComponent.constructor` | packages/angular/src/app/shared/components/card-tasks/card-tasks.component.ts:23-29 | the card starts out loading, with no tasks |
| `CardTasks.CardTasksComponent.NgOnChanges` | packages/angular/src/app/shared/components/card-tasks/card-tasks.component.ts:31-37 | `isLoading` holds exactly when the change carries no tasks; then `currentTasks` is left alone; otherwise `currentTasks` becomes the filtered tasks |
| `CardTasks.CardTasksComponent.OnReorder` | packages/angular/src/app/shared/components/card-tasks/card-tasks.component.ts:39-46 | the new list is the reorder of the old list; with the dragged task present, the multiset is kept; with both rows present, the task lands at the target's old position and the others keep their order |
| `VueRouter.PageModule` | packages/vue/src/router.ts:6-9 | the loaded module is `@/pages/` + file + `.vue`; the file name can be read back from it |
| `VueRouter.PageModuleInjective` | packages/vue/src/router.ts:6-9 | distinct file names load distinct modules |
| `VueRouter.ComponentPath` | packages/vue/src/router.ts:73 | the component path is empty exactly when the descriptor sets none of folder, name and file |
| `VueRouter.PagePath` | packages/vue/src/router.ts:68 | the path is absolute; with a truthy name it is `/` + name, else with a truthy file it is `/` + file |
| `VueRouter.PagePathUndefined` | packages/vue/src/router.ts:68 | with no truthy name and no file, the path is `/undefined` |
| `VueRouter.PageRoute` | packages/vue/src/router.ts:67-74 | a generated route requires auth, uses the default layout, has neither a name nor a redirect, and its path is `/` + name, or `/` + file when there is no name |
| `VueRouter.PageRoutes` | packages/vue/src/router.ts:59-74 | the generated list has one route per descriptor, in order |
| `VueRouter.ComponentPathSegments` | packages/vue/src/router.ts:73 | when at least one of folder, name and file is set and no field contains `/`, the component path splits back into the set fields folder, name, name, file, in that order |
| `VueRouter.ComponentPathNameOnly` | packages/vue/src/router.ts:73 | a descriptor with only a name loads `name/name` |
| `VueRouter.ComponentPathFolderName` | packages/vue/src/router.ts:73 | a folder and a name load `folder/name/name` |
| `VueRouter.ComponentPathFolderFile` | packages/vue/src/router.ts:73 | a folder and a file load `folder/file` |
| `VueRouter.CrmContactListComponent` | packages/vue/src/router.ts:59-74 | `crm-contact-list` loads `crm-contact-list/crm-contact-list` |
| `VueRouter.PlanningTaskDetailsComponent` | packages/vue/src/router.ts:59-74 | `planning-task-details` loads `planning/planning-task-details` |
| `VueRouter.RouteTable` | packages/vue/src/router.ts:13-75 | the table holds the root redirect, the four account routes and one route per page descriptor |
| `VueRouter.AccountRouteAt` | packages/vue/src/router.ts:14-58 | the first five routes are public; only the root has a redirect; the other four carry account route names; every path is absolute |
| `VueRouter.PageRouteAt` | packages/vue/src/router.ts:59-74 | past the first five, the table holds the generated routes in descriptor order |
| `VueRouter.RootRedirectsToFirstPage` | packages/vue/src/router.ts:14-17 | the root redirects to the path of the first generated route, `/crm-contact-list` |
| `VueRouter.RoutePathsAbsolute` | packages/vue/src/router.ts:13-75 | every path of the table starts with `/` |
| `VueRouter.PageRoutesShape` | packages/vue/src/router.ts:67-74 | for descriptors that each have a name or a file, every generated route requires auth, uses the default layout, has no name, and has the path `/` + name, or `/` + file |
| `VueRouter.PageRoutesProtected` | packages/vue/src/router.ts:59-74 | every generated route of the table requires auth and has path `/` + (name or file); no descriptor lacks both |
| `VueRouter.AccountRoutesPresent` | packages/vue/src/router.ts:18-58 | login-form, reset-password, create-account and change-password are all routes of the table |
| `VueRouter.AccountRoutesPublic` | packages/vue/src/router.ts:13-75 | the named routes are exactly the four account routes, and none of them requires auth |
| `VueRouter.ProtectedExactlyPages` | packages/vue/src/router.ts:13-75 | a route of the table requires auth exactly when it has neither a name nor a redirect |
| `VueRouter.RequiresAuth` | packages/vue/src/router.ts:83 | `record.meta.requiresAuth`, false for a record without a meta |
| `VueRouter.SomeRequiresAuth` | packages/vue/src/router.ts:83 | true exactly when some matched record requires auth |
| `VueRouter.GuardCalls` | packages/vue/src/router.ts:78-95 | the guard calls `next` once or twice; two calls are a home redirect followed by `next()`; a last call that does not proceed is the only call, and sends a logged-out user to the login form with the original path |
| `VueRouter.Decision` | packages/vue/src/router.ts:78-95 | the decision is home exactly for a logged-in user going to the login form, the login form with the original path exactly for a logged-out user going to a protected route, and otherwise `next()` |
| `VueRouter.BeforeEach` | packages/vue/src/router.ts:78-95 | the guard's log of `next` calls holds one or two calls, and the first is the three-way decision |
| `VueRouter.GuardFirstCallDecides` | packages/vue/src/router.ts:78-95 | there are two calls exactly for a logged-in user going to the login form, and one otherwise; the first call is home / login-with-redirect / proceed |
| `VueRouter.GuardLoggedOutProtected` | packages/vue/src/router.ts:83-88 | logged out, with a matched record requiring auth, the only call is a redirect to `login-form` with `redirect = fullPath` |
| `VueRouter.GuardLoggedIn` | packages/vue/src/router.ts:79-93 | logged in, going anywhere but the login form, the only call is `next()` |
| `VueRouter.GuardUnprotected` | packages/vue/src/router.ts:92-93 | when no matched record requires auth, the last call is `next()`, and it is the only call unless the user is logged in and going to the login form |
| `VueRouter.GuardLoginFormTwice` | packages/vue/src/router.ts:78-95 | a logged-in user opening the login form gets `next({name: 'home'})` and then `next()` |
| `VueRouter.GuardPlanningTaskListLoggedOut` | packages/vue/src/router.ts:59-88 | logged out, `/planning-task-list` leads to `login-form` with `redirect=/planning-task-list` |
| `VueRouter.GuardProtectsExactlyPages` | packages/vue/src/router.ts:13-95 | for a single matched route of the table, a logged-out user is turned away exactly when it is a generated page route |
| `PlanningTaskListPage.ListsDataPositions` | packages/react/src/pages/planning-task-list/planning-task-list.tsx:27 | LIST, KANBAN BOARD and GANTT sit at positions 0, 1 and 2 |
| `PlanningTaskListPage.IsDataGrid` | packages/react/src/pages/planning-task-list/planning-task-list.tsx:44 | `isDataGrid` holds only for the first tab's view, and never together with `isKanban` |
| `PlanningTaskListPage.IsKanban` | packages/react/src/pages/planning-task-list/planning-task-list.tsx:45 | `isKanban` holds only for the second tab's view |
| `PlanningTaskListPage.RenderedWidgets` | packages/react/src/pages/planning-task-list/planning-task-list.tsx:220-223 | at most one widget is rendered, and none exactly while loading or when the view is not a tab |
| `PlanningTaskListPage.RefreshTarget` | packages/react/src/pages/planning-task-list/planning-task-list.tsx:79-87 | refresh goes to the grid exactly in list view, to the kanban exactly in kanban view, else to the gantt; once loaded on a tab view, it is the one widget rendered |
| `PlanningTaskListPage.PdfExporterFor` | packages/react/src/pages/planning-task-list/planning-task-list.tsx:93-109 | the PDF export uses the grid exporter exactly in list view, else the gantt exporter; once loaded on a tab view where the button is enabled, the exporter reads the one widget rendered |
| `PlanningTaskListPage.Disabled` | packages/react/src/pages/planning-task-list/planning-task-list.tsx:137-218 | the column chooser, XLSX export and search are enabled exactly in list view, whose widget is the grid once loaded; the PDF export is disabled exactly in kanban view, whose widget is the kanban once loaded; the tabs, add and refresh are always enabled |
| `PlanningTaskListPage.PlanningTaskList.constructor` | packages/react/src/pages/planning-task-list/planning-task-list.tsx:34-42 | the page starts in list view at index 0, loading, with the popup hidden and no data |
| `PlanningTaskListPage.PlanningTaskList.OnTabClick` | packages/react/src/pages/planning-task-list/planning-task-list.tsx:66-69 | the view becomes the clicked caption; for a tab, the index is its position and `listsData[index] == view`; for anything else the index is -1; the index always mirrors the view |
| `PlanningTaskListPage.PlanningTaskList.LoadingEffect` | packages/react/src/pages/planning-task-list/planning-task-list.tsx:56-60 | loading ends once both data sets are non-empty, and is never set back |
| `PlanningTaskListPage.PlanningTaskList.OnTasksLoaded` | packages/react/src/pages/planning-task-list/planning-task-list.tsx:47-60 | the grid data is stored, and loading ends if the filtered data is non-empty too |
| `PlanningTaskListPage.PlanningTaskList.OnFilteredTasksLoaded` | packages/react/src/pages/planning-task-list/planning-task-list.tsx:47-60 | the filtered data is stored, and loading ends if the grid data is non-empty too |
| `PlanningTaskListPage.PlanningTaskList.ChangePopupVisibility` | packages/react/src/pages/planning-task-list/planning-task-list.tsx:71-73 | the popup flag is negated, so two calls restore it |
| `PlanningTaskListPage.PlanningTaskList.OnSavePopupClick` | packages/react/src/pages/planning-task-list/planning-task-list.tsx:75-77 | saving toggles the popup flag once |
| `PlanningTaskListPage.PlanningTaskList.RefreshClicked` | packages/react/src/pages/planning-task-list/planning-task-list.tsx:79-87 | the refresh target for the current view, which is the one widget rendered once loaded on a tab view |
| `PlanningTaskListPage.PlanningTaskList.ExportToPdfClicked` | packages/react/src/pages/planning-task-list/planning-task-list.tsx:93-110 | the PDF exporter for the current view, which, once loaded on a tab view, reads the one widget rendered whenever the button is enabled |

## Left out

- Widget instance calls (`refresh`, `update`, `searchByText`, `showColumnChooser`, `getVisibleRows`) are calls into the widget library. The model records only which widget a handler targets. The row dropped onto, `getVisibleRows()[e.toIndex].data`, is an input of `OnReorder`.
- PDF and XLSX export are left out: the jsPDF, exceljs and file-saver calls, the library exporters and their promises. Only the choice of exporter is modelled. The column chooser, XLSX export and search always go to the grid; only their `disabled` flags are modelled.
- Async data loading is left out: `Promise.all`, `getTasks`, `getFilteredTasks` and the logging of a rejection. Each resolved load is a method that takes the data as a parameter and then runs the loading effect.
- React batches state updates and runs effects after rendering. The model applies each handler's updates at once and treats each handler call as a separate event with a render in between. Two `changePopupVisibility` calls within ONE render would both read the same stale flag; that is not modelled.
- `newTaskData` and `onDataChanged` are left out: a plain assignment with nothing to state.
- vue-router internals are left out: hash history, path matching, lazy `import()`, and its handling of a second `next` call. `to.matched` and `to.fullPath` are inputs. `authInfo.loggedIn()` is one boolean input, although the source calls it twice. `home` is an opaque route name, since the table does not define it.
- Route layouts are modelled as two tags. The reset-password route's `description` text is not modelled.
- `PlanningTaskList` is generic in the task record type. Only the lengths of the data sets are observed.
- Task records keep only what the card reads: status and priority. An `id` stands for object identity, so strict equality is `==` on the datatype.
- `currentTasks` is `undefined` in the source until the first change notification. `CardTasksComponent.constructor` starts it as an empty list. A drop before any tasks arrive would throw in the source and is not modelled.
- Template rendering, styling and toolbar layout options are left out.
- packages/react/src/components/card-activities/CardActivities.tsx is not part of this model: it is pure rendering, and its date formatting is a library call.
- packages/angular/src/app/shared/components/form-textbox/form-textbox.component.ts is not part of this model: it only declares inputs and outputs.
- packages/shell/src/app/app.component.ts is not part of this model: its select-box handlers only assign a field.
