/** The planning task list page of the React package: three tabs choose
    between a grid, a kanban board and a gantt chart of the same tasks; the
    toolbar's refresh and PDF export go to whichever of them is shown, and
    the grid-only tools are disabled elsewhere. */
module PlanningTaskListPage {
  import opened JsBuiltins

  const ListView := "LIST"
  const KanbanView := "KANBAN BOARD"
  const GanttView := "GANTT"

  /** The tab captions, in tab order. */
  const ListsData: seq<string> := [ListView, KanbanView, GanttView]

  /** The three widgets the page can show. */
  datatype Widget = Grid | Kanban | Gantt

  /** The two PDF exporters the page can use. */
  datatype PdfExporter = GridPdfExporter | GanttPdfExporter

  /** The toolbar items. */
  datatype ToolbarItem = Tabs | AddTask | Refresh | ColumnChooser | ExportPdf | ExportXlsx | Search

  /** `isDataGrid`: the list view, the first tab; never also the kanban. */
  predicate IsDataGrid(view: string)
    ensures IsDataGrid(view) ==> IndexOf(ListsData, view) == 0 && !IsKanban(view)
  {
    ListsDataPositions(); // gives the position stated in the ensures
    view == ListView
  }

  /** `isKanban`: the kanban view, the second tab. */
  predicate IsKanban(view: string)
    ensures IsKanban(view) ==> IndexOf(ListsData, view) == 1
  {
    ListsDataPositions(); // gives the position stated in the ensures
    view == KanbanView
  }

  /** The widgets the page renders: none while loading, otherwise the one
      whose view is selected. At most one widget is rendered, and one is
      rendered exactly when the page has loaded and the view is a tab. */
  function RenderedWidgets(loading: bool, view: string): (w: set<Widget>)
    ensures |w| <= 1
    ensures w == {} <==> loading || view !in ListsData
  {
    var w := (if !loading && IsDataGrid(view) then {Grid} else {})
      + (if !loading && IsKanban(view) then {Kanban} else {})
      + (if !loading && view == GanttView then {Gantt} else {});
    if loading || view !in ListsData then
      assert w == {};
      w
    else if view == ListView then
      assert w == {Grid};
      w
    else if view == KanbanView then
      assert w == {Kanban};
      w
    else
      assert w == {Gantt};
      w
  }

  /** The widget `refresh` acts on: the grid exactly in list view, the
      kanban exactly in kanban view, the gantt otherwise. Once loaded on a
      view among the tabs, it is the one widget rendered. */
  function RefreshTarget(view: string): (w: Widget)
    ensures w == Grid <==> view == ListView
    ensures w == Kanban <==> view == KanbanView
    ensures view in ListsData ==> RenderedWidgets(false, view) == {w}
  {
    var w := if IsDataGrid(view) then Grid else if IsKanban(view) then Kanban else Gantt;
    assert view == ListView ==> RenderedWidgets(false, view) == {Grid};
    assert view == KanbanView ==> RenderedWidgets(false, view) == {Kanban};
    assert view == GanttView ==> RenderedWidgets(false, view) == {Gantt};
    w
  }

  /** The exporter `exportToPDF` uses: the grid exporter exactly in list
      view, the gantt exporter otherwise. Once loaded on a view among the
      tabs where its button is enabled, it reads the one widget rendered. */
  function PdfExporterFor(view: string): (e: PdfExporter)
    ensures e == GridPdfExporter <==> view == ListView
    ensures view in ListsData && !Disabled(ExportPdf, view) ==>
      RenderedWidgets(false, view) == {ExportedWidget(e)}
  {
    var e := if IsDataGrid(view) then GridPdfExporter else GanttPdfExporter;
    assert view in ListsData && !Disabled(ExportPdf, view) ==> ExportedWidget(e) in RenderedWidgets(false, view);
    e
  }

  /** The widget an exporter reads its data from. */
  function ExportedWidget(e: PdfExporter): Widget {
    match e
    case GridPdfExporter => Grid
    case GanttPdfExporter => Gantt
  }

  /** The toolbar's `disabled` flags. The column chooser, the XLSX export
      and the search box are enabled exactly in list view, whose widget is
      the grid once loaded; the PDF export is disabled exactly in kanban
      view, whose widget is the kanban once loaded; the other items are
      always enabled. */
  predicate Disabled(item: ToolbarItem, view: string)
    ensures item in {ColumnChooser, ExportXlsx, Search} ==>
      (!Disabled(item, view) <==> view == ListView && Grid in RenderedWidgets(false, view))
    ensures item == ExportPdf ==>
      (Disabled(item, view) <==> view == KanbanView && Kanban in RenderedWidgets(false, view))
    ensures item in {Tabs, AddTask, Refresh} ==> !Disabled(item, view)
  {
    match item
    case ColumnChooser | ExportXlsx | Search => view != ListView
    case ExportPdf => IsKanban(view)
    case Tabs | AddTask | Refresh => false
  }

  /** Each tab caption sits at its own position. */
  lemma ListsDataPositions()
    ensures IndexOf(ListsData, ListView) == 0
    ensures IndexOf(ListsData, KanbanView) == 1
    ensures IndexOf(ListsData, GanttView) == 2
  {
    assert ListsData[1..] == [KanbanView, GanttView];
    assert ListsData[1..][1..] == [GanttView];
  }

  /** The page's state. `T` is the type of the task records the data
      source delivers; the page only looks at how many there are. */
  class PlanningTaskList<T> {
    var view: string
    var index: int
    var gridData: seq<T>
    var filteredData: seq<T>
    var loading: bool
    var popupVisible: bool

    /** The selected tab index mirrors the view. */
    predicate TabsInSync()
      reads this
    {
      index == IndexOf(ListsData, view)
    }

    constructor ()
      ensures view == ListView && index == 0 && TabsInSync()
      ensures gridData == [] && filteredData == []
      ensures loading && !popupVisible
    {
      view := ListView;
      index := 0;
      gridData := [];
      filteredData := [];
      loading := true;
      popupVisible := false;
      ListsDataPositions();
    }

    /** `onTabClick`: show the clicked tab's view and select its index
        (-1 for a caption that is not a tab). */
    method OnTabClick(itemData: string)
      modifies this`view, this`index
      ensures view == itemData && index == IndexOf(ListsData, itemData)
      ensures TabsInSync()
      ensures itemData in ListsData ==> 0 <= index < 3 && ListsData[index] == view
      ensures itemData !in ListsData ==> index == -1
    {
      view := itemData;
      index := IndexOf(ListsData, itemData);
    }

    /** The effect that runs when either data set changes: once both are
        non-empty, loading ends. Nothing sets `loading` back. */
    method LoadingEffect()
      modifies this`loading
      ensures loading == (old(loading) && !(|filteredData| > 0 && |gridData| > 0))
    {
      if |filteredData| > 0 && |gridData| > 0 {
        loading := false;
      }
    }

    /** `getTasks()` resolved with `data`: `setGridData`, then the effect. */
    method OnTasksLoaded(data: seq<T>)
      modifies this`gridData, this`loading
      ensures gridData == data
      ensures loading == (old(loading) && !(|filteredData| > 0 && |data| > 0))
    {
      gridData := data;
      LoadingEffect();
    }

    /** `getFilteredTasks()` resolved with `data`: `setFilteredData`, then
        the effect. */
    method OnFilteredTasksLoaded(data: seq<T>)
      modifies this`filteredData, this`loading
      ensures filteredData == data
      ensures loading == (old(loading) && !(|data| > 0 && |gridData| > 0))
    {
      filteredData := data;
      LoadingEffect();
    }

    /** `changePopupVisibility`: show a hidden popup, hide a shown one. */
    method ChangePopupVisibility()
      modifies this`popupVisible
      ensures popupVisible == !old(popupVisible)
    {
      popupVisible := !popupVisible;
    }

    /** `onSavePopupClick`: one visibility toggle. */
    method OnSavePopupClick()
      modifies this`popupVisible
      ensures popupVisible == !old(popupVisible)
    {
      ChangePopupVisibility();
    }

    /** Which widget `refresh` acts on in the current state. */
    method RefreshClicked() returns (w: Widget)
      ensures w == RefreshTarget(view)
      ensures !loading && view in ListsData ==> w in RenderedWidgets(loading, view)
    {
      w := RefreshTarget(view);
    }

    /** Which exporter `exportToPDF` uses in the current state. */
    method ExportToPdfClicked() returns (e: PdfExporter)
      ensures e == PdfExporterFor(view)
      ensures !loading && view in ListsData && !Disabled(ExportPdf, view) ==>
        ExportedWidget(e) in RenderedWidgets(loading, view)
    {
      e := PdfExporterFor(view);
    }
  }
}
