/** The web API as the commands see it. Nothing here talks to the network: every
    endpoint the modelled code calls is a total function from its request
    parameters to the decoded reply, fixed for one run of a command. `None`
    stands for "no usable reply": a falsy result from the asynchronous client,
    or an exception from the synchronous one. */
module SlackApi {
  import opened Wrappers
  import opened JsonValues

  datatype Api = Api(
    /** `users.info` with parameter `user`. */
    usersInfo: string -> Option<Json>,
    /** `conversations.info` with parameter `channel`. */
    conversationsInfo: string -> Option<Json>,
    /** `conversations.history` with `channel`, `latest`, `inclusive`, `limit: 1`. */
    history: (string, string) -> Option<Json>,
    /** the batch user-group lookup of the edge API, keyed by the set of ids sent. */
    usergroupsInfo: set<string> -> Option<Json>)
}
