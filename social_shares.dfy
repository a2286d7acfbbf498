/**
 * The `social-shares` component: its properties, its `networks` and `popup`
 * data, and the three operations that change them. The browser is outside the
 * model: what `window.open` returns and what `window.location` and
 * `window.screen` hold are parameters, and the calls to `window.open` and to
 * `$dispatch` are recorded in two logs.
 */
module SocialShares {
  import opened Wrappers
  import opened Templating
  import opened Networks
  import opened PopupSettings

  /** One call of `window.open(url, name, features)`. */
  datatype OpenCall = OpenCall(url: string, name: string, features: string)

  /** One `$dispatch(name, network, url)`. */
  datatype Event = Event(name: string, network: string, url: Option<string>)

  /** Reading `.sharer` of the `undefined` that an unknown network key looks up. */
  datatype ShareError = TypeError

  const ClickEvent := "social_shares_click"
  const SharerWindow := "sharer"

  class Widget {
    /** `None` while the `url` property is `undefined`. */
    var url: Option<string>
    var title: string
    var description: string
    var twitterUser: string
    var networks: map<string, Network>
    var popup: Popup
    /** The calls made to `window.open`, oldest first. */
    var openCalls: seq<OpenCall>
    /** The events dispatched, oldest first. */
    var events: seq<Event>

    /** The component as created with its properties, before `ready`. */
    constructor(url: Option<string>, title: string, description: string, twitterUser: string)
      ensures this.url == url && this.title == title
      ensures this.description == description && this.twitterUser == twitterUser
      ensures networks == Registry() && popup == DefaultPopup
      ensures openCalls == [] && events == []
    {
      this.url := url;
      this.title := title;
      this.description := description;
      this.twitterUser := twitterUser;
      networks := Registry();
      popup := DefaultPopup;
      openCalls := [];
      events := [];
    }

    /** The values the placeholders of a template are replaced with, given the url. */
    function FieldsFor(u: string): Fields
      reads this
    {
      Fields(u, title, description, twitterUser)
    }

    /**
     * Opens the sharer popup at `u`, with the features the popup record
     * describes, and keeps the handle `window.open` returns (`handle`).
     */
    method OpenSharer(u: string, handle: Handle)
      modifies this
      ensures openCalls == old(openCalls) + [OpenCall(u, SharerWindow, Features(old(popup)))]
      ensures popup == old(popup).(window := Some(handle))
      ensures url == old(url) && title == old(title) && description == old(description)
      ensures twitterUser == old(twitterUser) && networks == old(networks) && events == old(events)
    {
      openCalls := openCalls + [OpenCall(u, SharerWindow, Features(popup))];
      popup := popup.(window := Some(handle));
    }

    /**
     * Shares the url in `network`. With a url, the network's template is filled
     * in and opened; an unknown network fails before anything happens. With or
     * without a url, exactly one click event follows.
     */
    method Share(network: string, handle: Handle) returns (outcome: Outcome<ShareError>)
      modifies this
      ensures url == old(url) && title == old(title) && description == old(description)
      ensures twitterUser == old(twitterUser) && networks == old(networks)
      ensures old(url).None? ==>
        && outcome == Pass
        && popup == old(popup) && openCalls == old(openCalls)
        && events == old(events) + [Event(ClickEvent, network, None)]
      ensures old(url).Some? && network !in old(networks) ==>
        && outcome == Fail(TypeError)
        && popup == old(popup) && openCalls == old(openCalls) && events == old(events)
      ensures old(url).Some? && network in old(networks) ==>
        && outcome == Pass
        && openCalls == old(openCalls)
             + [OpenCall(Substitute(old(networks)[network].sharer, old(FieldsFor(url.value))),
                         SharerWindow, Features(old(popup)))]
        && popup == old(popup).(window := Some(handle))
        && events == old(events) + [Event(ClickEvent, network, old(url))]
    {
      if url.Some? {
        if network !in networks {
          return Fail(TypeError);
        }
        var link := Substitute(networks[network].sharer, FieldsFor(url.value));
        OpenSharer(link, handle);
      }
      events := events + [Event(ClickEvent, network, url)];
      return Pass;
    }

    /**
     * Defaults the url to the page's `location` and centres the popup on a
     * screen of `screenWidth` x `screenHeight`.
     */
    method Ready(location: string, screenWidth: int, screenHeight: int)
      modifies this
      ensures url == (if old(url).None? then Some(location) else old(url))
      ensures popup == old(popup).(left := CentredLeft(screenWidth, old(popup).width),
                                   top := CentredTop(screenHeight, old(popup).height))
      ensures title == old(title) && description == old(description) && twitterUser == old(twitterUser)
      ensures networks == old(networks) && openCalls == old(openCalls) && events == old(events)
    {
      if url.None? {
        url := Some(location);
      }
      popup := popup.(left := CentredLeft(screenWidth, popup.width));
      popup := popup.(top := CentredTop(screenHeight, popup.height));
    }
  }
}
