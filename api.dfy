/**
 * The records exchanged with the remote user service, and the observable effects
 * the pages produce besides their own state: router navigations and toasts.
 * The HTTP calls themselves are not modelled; each page method receives the
 * outcome of the call it awaits as a parameter.
 */
module Api {

  datatype Option<T> = None | Some(value: T)

  /** A user record as the service returns it. */
  datatype User = User(id: int, email: string, firstName: string, lastName: string, avatar: string)

  /** One page of `GET /users?page=N`. */
  datatype UserPage = UserPage(page: int, perPage: int, total: int, totalPages: int, data: seq<User>)

  /** What an awaited call produced: its value, or the message of the error it
      threw. The service layer has already logged and toasted a failure; the pages
      only log it. */
  datatype Result<T> = Ok(value: T) | Err(message: string)

  /** A call to the router's `navigate(path)`, or `navigate(path, { replace: true })`. */
  datatype Navigation = Navigation(path: string, replace: bool)

  /** A `toast.success`, `toast.error` or `toast.info` notification. */
  datatype Toast = SuccessToast(text: string) | ErrorToast(text: string) | InfoToast(text: string)

  /** The routes the pages navigate to. */
  const LoginRoute: string := "/"
  const UsersRoute: string := "/users"
}
