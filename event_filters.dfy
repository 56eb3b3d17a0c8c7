/** The mode policy: which normalized events the current editor mode lets through. */
module EventFilters {
  import opened Types

  /** COPY mode: container updates, left clicks, mouse downs and wheel events
      pass; a key-down passes only for the Control or `c` key; a drag event
      passes only on the workspace; nothing else passes. */
  predicate CopyEventFilter(e: Event) {
    match e
    case ContainerUpdate(_) => true
    case LeftClick(_, _) => true
    case MouseDown(_) => true
    case MouseWheel(_, _, _, _, _, _) => true
    case KeyDown(key, _, _, _) => key == "Control" || key == "c"
    case DragStart(target, _, _) => target.kind == WorkspaceTarget
    case DragEnd(target) => target.kind == WorkspaceTarget
    case Drag(target, _, _) => target.kind == WorkspaceTarget
    case _ => false
  }

  /** The filter of the current mode; `readOnlyFilter` stands for the
      READ_ONLY mode's filter, which is not part of this model. */
  predicate RootEventFilter(e: Event, mode: EditorMode, readOnlyFilter: Event -> bool) {
    match mode
    case ReadOnlyMode => readOnlyFilter(e)
    case CopyMode => CopyEventFilter(e)
    case _ => true
  }

  /** Is `e` one of the three drag events? */
  predicate IsDragEvent(e: Event) {
    e.DragStart? || e.Drag? || e.DragEnd?
  }

  /** The events COPY mode passes unconditionally. */
  predicate AlwaysAllowedInCopy(e: Event) {
    e.ContainerUpdate? || e.LeftClick? || e.MouseDown? || e.MouseWheel?
  }

  /** In COPY mode an event passes exactly when it is always allowed, is a
      Control/`c` key-down, or is a drag event on the workspace. */
  lemma CopyEventFilterCharacterized(e: Event)
    ensures CopyEventFilter(e) <==>
      || AlwaysAllowedInCopy(e)
      || (e.KeyDown? && (e.key == "Control" || e.key == "c"))
      || (IsDragEvent(e) && e.target.kind == WorkspaceTarget)
  {
  }

  /** Window resize, key-up, right click, mouse over/out and drop never pass in COPY mode. */
  lemma CopyEventFilterRejectsOthers(e: Event)
    requires e.WindowResize? || e.KeyUp? || e.RightClick? || e.MouseOver? || e.MouseOut? || e.Drop?
    ensures !CopyEventFilter(e)
  {
  }

  /** The key-down test is on `key` alone: `code`, modifier and shift do not matter. */
  lemma CopyKeyDownIgnoresCode(key: string, code1: string, code2: string, mod1: bool, mod2: bool,
                               shift1: bool, shift2: bool)
    ensures CopyEventFilter(KeyDown(key, code1, mod1, shift1)) == CopyEventFilter(KeyDown(key, code2, mod2, shift2))
  {
  }

  /** READ_ONLY delegates, COPY uses the copy policy, every other mode passes everything. */
  lemma RootEventFilterByMode(e: Event, mode: EditorMode, readOnlyFilter: Event -> bool)
    ensures mode == ReadOnlyMode ==> RootEventFilter(e, mode, readOnlyFilter) == readOnlyFilter(e)
    ensures mode == CopyMode ==> RootEventFilter(e, mode, readOnlyFilter) == CopyEventFilter(e)
    ensures mode != ReadOnlyMode && mode != CopyMode ==> RootEventFilter(e, mode, readOnlyFilter)
  {
  }

  /** Outside READ_ONLY mode the read-only filter has no influence. */
  lemma RootEventFilterIgnoresReadOnlyOutsideIt(e: Event, mode: EditorMode, f: Event -> bool, g: Event -> bool)
    requires mode != ReadOnlyMode
    ensures RootEventFilter(e, mode, f) == RootEventFilter(e, mode, g)
  {
  }

  /** In COPY mode a drag on anything but the workspace is always rejected. */
  lemma CopyModeRejectsNonWorkspaceDrag(e: Event, readOnlyFilter: Event -> bool)
    requires IsDragEvent(e) && e.target.kind != WorkspaceTarget
    ensures !RootEventFilter(e, CopyMode, readOnlyFilter)
  {
  }
}
