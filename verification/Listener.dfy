/** What a file system watcher tells the daemon. */
module Listener {

  datatype EventType = FileDiscovered | FileCreated | FileMoved | FileDeleted | FileModified | Unmounted
}
