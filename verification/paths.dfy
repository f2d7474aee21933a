/** TSCBasic's AbsolutePath, as the list of its components. */
module Paths {
  import opened Strings

  datatype AbsolutePath = AbsolutePath(components: seq<string>) {

    function Appending(component: string): AbsolutePath {
      AbsolutePath(components + [component])
    }

    /** The textual form: "/" followed by the components joined with "/". */
    function PathString(): string {
      "/" + Join(components, "/")
    }

    /** The last component; the root directory's basename is "/". */
    function Basename(): string {
      if components == [] then "/" else components[|components| - 1]
    }
  }
}
