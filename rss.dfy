/** The part of `fetchFeed` (src/rss.ts) that follows the HTTP request and the XML
    parse: finding `rss.channel` and turning its `item` member into a list. The request
    and the parser are outside the model; their output is a tree of `XmlNode`s. */
module Rss {
  import opened Common

  /** What the XML parser returns: the text of a leaf element, an element's children by
      tag name, or the list it makes of a tag that repeats. */
  datatype XmlNode =
    | Text(text: string)
    | Element(children: map<string, XmlNode>)
    | Repeated(elems: seq<XmlNode>)

  /** `node.key`: elements have members; text and lists have none (`undefined`). */
  function Member(n: XmlNode, key: string): Option<XmlNode>
  {
    if n.Element? && key in n.children then Some(n.children[key]) else None
  }

  /** JavaScript truthiness of a member: `undefined` and the empty string are falsy. */
  predicate Truthy(v: Option<XmlNode>)
  {
    v.Some? && !(v.value.Text? && v.value.text == "")
  }

  /** `RSSFeed.channel`: three fields copied as they are and the list of items. */
  datatype Channel = Channel(title: Option<XmlNode>, link: Option<XmlNode>,
                             description: Option<XmlNode>, items: seq<XmlNode>)

  datatype RssFeed = RssFeed(channel: Channel)

  /** `items`: nothing for a falsy member, the list itself for a list, and a one-element
      list for anything else. */
  function ItemList(item: Option<XmlNode>): (r: seq<XmlNode>)
    ensures !Truthy(item) ==> r == []
    ensures Truthy(item) && item.value.Repeated? ==> r == item.value.elems
    ensures Truthy(item) && !item.value.Repeated? ==> r == [item.value]
  {
    if !Truthy(item) then []
    else if item.value.Repeated? then item.value.elems
    else [item.value]
  }

  /** The parsed document has a truthy `rss` member whose `channel` member is truthy too. */
  predicate HasChannel(parsed: XmlNode)
  {
    Truthy(Member(parsed, "rss")) && Truthy(Member(Member(parsed, "rss").value, "channel"))
  }

  /** `fetchFeed` after the parse: a document without `rss.channel` is rejected; otherwise
      the channel's title, link and description are copied and its items listed. */
  function NormalizeFeed(parsed: XmlNode): (r: Result<RssFeed>)
    ensures r.Err? <==> !HasChannel(parsed)
    ensures r.Err? ==> r.error == MissingChannel
    ensures r.Ok? ==>
      var channel := Member(Member(parsed, "rss").value, "channel").value;
      && r.value.channel.title == Member(channel, "title")
      && r.value.channel.link == Member(channel, "link")
      && r.value.channel.description == Member(channel, "description")
      && r.value.channel.items == ItemList(Member(channel, "item"))
  {
    var rss := Member(parsed, "rss");
    if !Truthy(rss) then Err(MissingChannel)
    else
      var channel := Member(rss.value, "channel");
      if !Truthy(channel) then Err(MissingChannel)
      else
        var c := channel.value;
        Ok(RssFeed(Channel(Member(c, "title"), Member(c, "link"), Member(c, "description"),
                           ItemList(Member(c, "item")))))
  }

  /** `fetchFeed(url)`: the fetcher (HTTP GET and XML parse, outside the model) may fail;
      what it returns is normalised. */
  function FetchFeed(url: string, fetchXml: string -> Result<XmlNode>): (r: Result<RssFeed>)
    ensures fetchXml(url).Err? ==> r == Err(fetchXml(url).error)
    ensures fetchXml(url).Ok? ==> r == NormalizeFeed(fetchXml(url).value)
  {
    match fetchXml(url)
    case Err(e) => Err(e)
    case Ok(parsed) => NormalizeFeed(parsed)
  }

  /** A single `item` object and a one-element list holding it normalise alike. */
  lemma SingleItemIsSingletonList(x: XmlNode)
    requires Truthy(Some(x)) && !x.Repeated?
    ensures ItemList(Some(x)) == ItemList(Some(Repeated([x]))) == [x]
  {
  }

  /** The tree the parser builds for `<rss><channel>…</channel></rss>` whose channel has the
      members `fields` besides its items: no `item` member for no item, the item itself
      for one item, a list for several. */
  function ParsedChannel(fields: map<string, XmlNode>, items: seq<XmlNode>): XmlNode
  {
    var others := fields - {"item"};
    var channel :=
      if |items| == 0 then others
      else if |items| == 1 then others["item" := items[0]]
      else others["item" := Repeated(items)];
    Element(map["rss" := Element(map["channel" := Element(channel)])])
  }

  /** Whatever number of items the document holds, normalising gives them back in document
      order, with the channel's title, link and description unchanged. */
  lemma ItemsRecovered(fields: map<string, XmlNode>, items: seq<XmlNode>)
    requires forall i :: 0 <= i < |items| ==> items[i].Element?
    ensures var r := NormalizeFeed(ParsedChannel(fields, items));
            && r.Ok?
            && r.value.channel.items == items
            && r.value.channel.title == Member(Element(fields), "title")
            && r.value.channel.link == Member(Element(fields), "link")
            && r.value.channel.description == Member(Element(fields), "description")
  {
    var others := fields - {"item"};
    var parsed := ParsedChannel(fields, items);
    assert Member(parsed, "rss").Some?;
    var c := Member(Member(parsed, "rss").value, "channel").value;
    assert c.Element?;
    assert forall k :: k != "item" ==> Member(c, k) == Member(Element(fields), k);
    if |items| == 1 {
      assert Member(c, "item") == Some(items[0]);
    } else if |items| > 1 {
      assert Member(c, "item") == Some(Repeated(items));
    } else {
      assert Member(c, "item") == None;
    }
  }
}
