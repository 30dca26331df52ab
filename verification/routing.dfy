/** Locations and navigation requests, returned as values by the pages and
    guards instead of being performed. */
module Routing {

  datatype Location = Location(pathname: string, search: string)

  /** The `state` a navigation carries: nothing, a location to come back
      to, a plain string under `from`, or a message for the next page. */
  datatype LocationState =
    | NoState
    | FromLocation(from: Location)
    | FromText(text: string)
    | WithMessage(message: string)

  /** `navigate(to, { state, replace })` or `<Navigate … />`. */
  datatype Navigation = Navigation(to: string, state: LocationState, replace: bool)

  const LoginPath := "/auth/login"
}
