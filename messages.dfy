/** The part of a Telegram message that the exporter looks at. The client
    library's objects are replaced by plain values: a forward origin, a media
    attachment, and a flag for service messages. */
module Messages {
  import opened Seqs

  /** A forward's original sender. Any of the three names may be missing. */
  datatype User = User(username: Option<string>, firstName: Option<string>, lastName: Option<string>)

  /** A forward's originating chat or channel. */
  datatype Chat = Chat(title: string)

  /** Where a forwarded message came from: a user, a chat, both or neither. */
  datatype Forward = Forward(sender: Option<User>, chat: Option<Chat>)

  /** A web-page preview: the empty placeholder variant, or a page with a url
      and a possibly missing title. */
  datatype WebPage = EmptyPage | Page(url: string, title: Option<string>)

  /** The attachment kinds the formatter distinguishes; `OtherMedia` stands
      for every other kind (geo points, polls, contacts, ...). */
  datatype Media = NoMedia | WebPageMedia(page: WebPage) | Photo | Document | OtherMedia

  /** `date` is the send time in whole epoch seconds; `forward` is `None`
      for a message the account owner wrote; `service` marks the client's
      service messages (joins, pins, ...). */
  datatype Message = Message(date: int, text: string, media: Media, forward: Option<Forward>, service: bool)
}
