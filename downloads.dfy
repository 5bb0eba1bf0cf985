/** The download folder the Previred scripts save printed forms into and the
    upload script reads them from, as the set of file names it holds. */
module Downloads {
  /** `descarga_dir` */
  const DownloadDir := "/home/matias/Previred/descarga"

  /** The name the portal gives every printed form. */
  const Downloaded := "CtrlPdf.pdf"

  /** The name a form is stored under once renamed after its record. */
  function PdfName(id: string): string {
    id + ".pdf"
  }

  class Folder {
    var names: set<string>

    constructor (initial: set<string>)
      ensures names == initial
    {
      names := initial;
    }

    /** A file arrives (the browser saves a download). */
    method Receive(name: string)
      modifies this`names
      ensures names == old(names) + {name}
    {
      names := names + {name};
    }

    /** `os.rename`, which replaces an existing target. */
    method Rename(source: string, target: string)
      requires source in names
      modifies this`names
      ensures names == old(names) - {source} + {target}
    {
      names := names - {source} + {target};
    }

    /** `os.remove` */
    method Remove(name: string)
      modifies this`names
      ensures names == old(names) - {name}
    {
      names := names - {name};
    }
  }
}
