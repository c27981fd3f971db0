/** `ScpiWorkspaceState` and `EditorWorkspaceState`: which tab of a tab strip
    is showing, and the Bootstrap classes each tab link and pane is rendered
    with. The two classes behave identically over their own tab enumerations,
    so the behaviour is defined once over any tab type. */
module WorkspaceStates {

  /** The tabs of the SCPI workspace card. */
  datatype ScpiWorkspaceTab = Commands | Instrument

  /** The tabs of the editor workspace. */
  datatype EditorWorkspaceTab = SourceEditor | ScpiWorkspace

  /** A tab strip: the tab that is showing. */
  datatype TabState<T> = TabState(activeTab: T)

  const TabCss: string := "nav-link"
  const ActiveTabCss: string := "nav-link active"
  const PaneCss: string := "tab-pane fade"
  const ActivePaneCss: string := "tab-pane fade show active"

  predicate IsActive<T(==)>(s: TabState<T>, tab: T) {
    s.activeTab == tab
  }

  /** `SetActiveTab`: afterwards `tab`, and only `tab`, is active. */
  function SetActiveTab<T(==,!new)>(s: TabState<T>, tab: T): (r: TabState<T>)
    ensures IsActive(r, tab)
    ensures forall other: T :: IsActive(r, other) <==> other == tab
  {
    TabState(tab)
  }

  /** `GetTabCss`: every tab link carries `nav-link`; the active one also
      carries `active`. */
  function GetTabCss<T(==)>(s: TabState<T>, tab: T): (r: string)
    ensures TabCss <= r
    ensures r == ActiveTabCss <==> IsActive(s, tab)
    ensures r == TabCss <==> !IsActive(s, tab)
  {
    if IsActive(s, tab) then ActiveTabCss else TabCss
  }

  /** `GetPaneCss`: every pane carries `tab-pane fade`; the active one also
      carries `show active`. */
  function GetPaneCss<T(==)>(s: TabState<T>, tab: T): (r: string)
    ensures PaneCss <= r
    ensures r == ActivePaneCss <==> IsActive(s, tab)
    ensures r == PaneCss <==> !IsActive(s, tab)
  {
    if IsActive(s, tab) then PaneCss + " show active" else PaneCss
  }

  /** Exactly one tab is rendered active, link and pane alike: the active
      tab's, and no two tabs at once. */
  lemma OneActiveTab<T>(s: TabState<T>, a: T, b: T)
    ensures GetTabCss(s, s.activeTab) == ActiveTabCss && GetPaneCss(s, s.activeTab) == ActivePaneCss
    ensures GetTabCss(s, a) == ActiveTabCss && GetTabCss(s, b) == ActiveTabCss ==> a == b
    ensures GetPaneCss(s, a) == ActivePaneCss && GetPaneCss(s, b) == ActivePaneCss ==> a == b
  {
  }

  /** Only the last selection matters, and selecting the showing tab changes
      nothing. */
  lemma LastSelectionWins<T(!new)>(s: TabState<T>, a: T, b: T)
    ensures SetActiveTab(SetActiveTab(s, a), b) == SetActiveTab(s, b)
    ensures SetActiveTab(s, s.activeTab) == s
  {
  }

  /** A new SCPI workspace shows the Commands tab. */
  function NewScpiWorkspaceState(): (r: TabState<ScpiWorkspaceTab>)
    ensures IsActive(r, Commands) && !IsActive(r, Instrument)
  {
    TabState(Commands)
  }

  /** `IsInstrumentPanelVisible`: exactly when the Instrument tab is active. */
  predicate IsInstrumentPanelVisible(s: TabState<ScpiWorkspaceTab>) {
    s.activeTab == Instrument
  }

  /** The instrument panel is visible exactly when the Instrument tab is
      rendered active, and it is hidden in a new workspace and shown once
      Instrument is selected. */
  lemma InstrumentPanelFollowsTab(s: TabState<ScpiWorkspaceTab>)
    ensures IsInstrumentPanelVisible(s) <==> GetTabCss(s, Instrument) == ActiveTabCss
    ensures IsInstrumentPanelVisible(s) <==> GetTabCss(s, Commands) == TabCss
    ensures !IsInstrumentPanelVisible(NewScpiWorkspaceState())
    ensures IsInstrumentPanelVisible(SetActiveTab(s, Instrument))
    ensures !IsInstrumentPanelVisible(SetActiveTab(s, Commands))
  {
  }

  /** A new SCPI workspace renders Commands active; after selecting
      Instrument, the Commands link and pane are plain and the Instrument
      ones active. */
  lemma ScpiSwitchUpdatesCss()
    ensures GetTabCss(NewScpiWorkspaceState(), Commands) == ActiveTabCss
    ensures GetPaneCss(NewScpiWorkspaceState(), Commands) == ActivePaneCss
    ensures var s := SetActiveTab(NewScpiWorkspaceState(), Instrument);
      && GetTabCss(s, Commands) == TabCss && GetTabCss(s, Instrument) == ActiveTabCss
      && GetPaneCss(s, Commands) == PaneCss && GetPaneCss(s, Instrument) == ActivePaneCss
  {
  }

  /** A new editor workspace shows the source editor. */
  function NewEditorWorkspaceState(): (r: TabState<EditorWorkspaceTab>)
    ensures IsActive(r, SourceEditor) && !IsActive(r, ScpiWorkspace)
  {
    TabState(SourceEditor)
  }

  /** A new editor workspace renders the source editor active; after
      selecting the SCPI workspace, the source editor's link and pane are
      plain and the SCPI workspace's active. */
  lemma EditorSwitchUpdatesCss()
    ensures GetTabCss(NewEditorWorkspaceState(), SourceEditor) == ActiveTabCss
    ensures GetPaneCss(NewEditorWorkspaceState(), SourceEditor) == ActivePaneCss
    ensures var s := SetActiveTab(NewEditorWorkspaceState(), ScpiWorkspace);
      && GetTabCss(s, SourceEditor) == TabCss && GetTabCss(s, ScpiWorkspace) == ActiveTabCss
      && GetPaneCss(s, SourceEditor) == PaneCss && GetPaneCss(s, ScpiWorkspace) == ActivePaneCss
  {
  }
}
