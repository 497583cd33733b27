/** The payloads the application sends over a data connection, told apart by their `type` field. */
module Messages {
  datatype Message =
    | IdentityMessage(guid: string, name: string)  // {type: 'identity', guid, name}
    | ChatMessage(content: string)                 // {type: 'chat', content}
    | OtherMessage(kind: string, body: string)     // any other payload of the application
}
