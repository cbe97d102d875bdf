/** Construction of site folders. */
module Helpers {
  import opened Definitions

  /** newSite: an empty folder with the given name and path. */
  function NewSite(name: string, path: string): (s: Site)
    ensures s.name == name && s.path == path
    ensures s.files == [] && s.subSites == []
  {
    Site(name, path, [], [])
  }
}
