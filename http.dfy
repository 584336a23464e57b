/** JSON responses of the route handlers: a status code and a body. */
module Http {
  import opened Records

  datatype Body =
    | ErrorBody(message: string)           // { error: message }
    | SuccessBody                          // { success: true }
    | CreatedBody(project: NewProject)     // { project } after an insert
    | ListBody(projects: seq<Project>)     // { projects }

  datatype Response = Response(status: int, body: Body)
}
