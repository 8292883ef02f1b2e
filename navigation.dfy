/** Navigation requests the client hands to the router, recorded as values. */
module Navigation {
  import opened Wrappers

  const LoginPath: string := "/login"
  const HomePath: string := "/"

  /**
   * `router.navigate({ to, search: { redirect }, replace })`: the target path, the optional
   * `redirect` search parameter and whether the history entry is replaced.
   */
  datatype Navigate = Navigate(to: string, redirect: Option<string>, replace: bool)

  /**
   * A location: its path and its full URL. The response hook reads the browser's current
   * `window.location`; the entry guard is handed the location of the route being entered,
   * which is the requested URL and not yet the browser's.
   */
  datatype Location = Location(pathname: string, href: string)
}
