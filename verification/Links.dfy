/** The other half of the status: which manager pods have their interface up. */
module Links {
  import opened Network
  import opened Text

  function DownKeys(links: map<string, Link>): set<string> {
    set pod | pod in links && links[pod] != Up
  }

  function Health(down: nat): string {
    if down > 0 then "Unhealthy" else "Healthy"
  }

  function ShortStateOf(links: map<string, Link>): string {
    var down := |DownKeys(links)|;
    Health(down)
    + " (" + FormatInt(|links| - down) + "/" + FormatInt(|links|) + ")"
  }

  /** The summary counts the links that are up among all of them, and is healthy if these are all. */
  lemma SummaryCountsUp(links: map<string, Link>)
    ensures var up := |set pod | pod in links && links[pod] == Up|;
            ShortStateOf(links) ==
              (if up == |links| then "Healthy" else "Unhealthy") + " (" + FormatInt(up) + "/" + FormatInt(|links|) + ")"
  {
    var up := set pod | pod in links && links[pod] == Up;
    assert up + DownKeys(links) == links.Keys && up !! DownKeys(links);
    assert |links.Keys| == |up| + |DownKeys(links)|;
  }

  /** What the manager pods and the spawn actions write: one link, and the summary. */
  function Linked(before: Status, pod: string, link: Link): Status {
    var links := before.links[pod := link];
    before.(links := links, shortState := ShortStateOf(links))
  }
}
