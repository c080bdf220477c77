/** The messages the applet's runtime delivers to `AppModel::update`. */
module Messages {
  import opened Records

  /** A handle on the system bus, known here only by its unique bus name. */
  datatype Connection = Connection(uniqueName: string)

  /** A popup window identifier. */
  type WindowId = nat

  datatype Message =
    | TogglePopup
    | PopupClosed(id: WindowId)
    | BootSettingsClicked
    | ActivateEnvironment(path: ObjectPath)
    | BootEnvironmentsLoaded(environments: seq<BootEnvironment>)
    | Connected(conn: Connection)
    | Added(env: BootEnvironment)
    | Removed(path: ObjectPath)
    | BootEnvironmentsModified
}
