/** The toast notifications the pages raise (`toast.success`, `toast.error`,
    `toast.warning`), as data: the model returns them instead of showing them. */
module Notices {
  import opened Optional

  datatype Level = Success | Error | Warning

  datatype Notice = Notice(level: Level, title: string, description: Option<string>)
}
