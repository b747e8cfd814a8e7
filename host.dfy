/**
 * The shell's observable effects on its host: the strings handed to
 * `system()`, the files given to `remove()`, the directories given to
 * `_chdir()` and the attributes given to `SetConsoleTextAttribute()`.
 * Each component appends what it causes to a log of these effects.
 */
module Host {
  import opened Builtins

  datatype Effect =
    | System(command: string)
    | Remove(path: string)
    | ChangeDir(path: string)
    | SetTextAttribute(attribute: Attribute)
}
