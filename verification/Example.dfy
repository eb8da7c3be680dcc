/** The small cluster of the concrete inputs: it serves ConfigMaps, and one namespace "n" holds
    one of them, owned by class "a". */
module Example {
  import opened Names
  import opened Kube
  import opened Weather

  function ConfigMaps(script: nat -> Event): World {
    var gvk := Gvk("", "v1", "ConfigMap");
    World(script, [ResourceList("v1", [ApiResource("configmaps", "ConfigMap", true, ["list", "watch"])])], {gvk}, {gvk})
  }

  function AllCalm(): World {
    ConfigMaps(_ => Calm)
  }

  /** Of all calls only call k is refused. */
  function AllBut(k: nat): World {
    ConfigMaps(i => if i == k then Refuse else Calm)
  }

  function TheId(): ObjectId {
    ObjectId("", "ConfigMap", "x")
  }

  function Holder(classLabel: string): Cell {
    Cell(Namespace(classLabel, map[LastApplied := "a", Current := "a"], false, 0),
         map[TheId() := Stored(Object(map[Owner := "a"], ""), 0)])
  }

  lemma ConfigMapsAreListed(script: nat -> Event)
    ensures WorldOk(ConfigMaps(script))
    ensures var w := ConfigMaps(script);
            Listed(w, ByList, w.discovery, "", "ConfigMap") && Listed(w, ByWatch, w.discovery, "", "ConfigMap")
  {
    var w := ConfigMaps(script);
    var l, r := w.discovery[0], w.discovery[0].resources[0];
    assert ParseGroupVersion("v1") == Good(GroupVersion("", "v1")) by {
      assert SlashFree("v1");
    }
    assert l in w.discovery && r in l.resources;
    assert ListedBy(w, ByList, l, "", "ConfigMap") && ListedBy(w, ByWatch, l, "", "ConfigMap");
  }

  lemma TheIdIsValid()
    ensures ValidId(TheId())
  {}
}
