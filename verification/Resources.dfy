/** The resources of a page as the summaries read them. */
module Resources {
  import opened Wrappers

  /** `initiator` is absent when not captured; its URL is absent for some kinds of initiator.
      `host` is absent when the URL has none. */
  datatype Resource = Resource(url: string, host: Option<string>, mimeType: string, status: nat, contentSize: nat,
                               fromCache: bool, connectionReused: bool, protocol: string, initiator: Option<Initiator>)

  datatype Initiator = Initiator(url: Option<string>)
}
