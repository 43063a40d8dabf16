/** `System.setProperty` / `System.clearProperty` on the JVM's property table. */
module SystemProperties {
  import opened Optional
  import opened Exceptions

  /** The key check both calls make first: a null key and an empty key are refused. */
  function CheckKey(key: Option<string>): Option<Exception> {
    if key.None? then Some(NullPointerException(Some("key can't be null")))
    else if key.value == "" then Some(IllegalArgumentException(Some("key can't be empty")))
    else None
  }

  /** `System.setProperty(key, value)`; a null value is refused by the table. */
  function Set(props: map<string, string>, key: Option<string>, value: Option<string>): (r: Outcome<map<string, string>>)
    ensures r.Normal? <==> key.Some? && key.value != "" && value.Some?
    ensures r.Normal? ==> r.value == props[key.value := value.value]
  {
    match CheckKey(key)
    case Some(e) => Thrown(e)
    case None =>
      if value.None? then Thrown(NullPointerException(None))
      else Normal(props[key.value := value.value])
  }

  /** `System.clearProperty(key)`. */
  function Clear(props: map<string, string>, key: Option<string>): (r: Outcome<map<string, string>>)
    ensures r.Normal? <==> key.Some? && key.value != ""
    ensures r.Normal? ==> r.value.Keys == props.Keys - {key.value}
    ensures r.Normal? ==> forall k :: k in r.value ==> r.value[k] == props[k]
  {
    match CheckKey(key)
    case Some(e) => Thrown(e)
    case None => Normal(props - {key.value})
  }

  /** The JVM-wide property table. */
  class Properties {
    var props: map<string, string>

    constructor (props: map<string, string>)
      ensures this.props == props
    {
      this.props := props;
    }

    method SetProperty(key: Option<string>, value: Option<string>) returns (error: Option<Exception>)
      modifies this
      ensures var r := Set(old(props), key, value);
              (error == if r.Thrown? then Some(r.error) else None)
              && props == if r.Normal? then r.value else old(props)
    {
      var r := Set(props, key, value);
      match r {
        case Thrown(e) => error := Some(e);
        case Normal(p) => error := None; props := p;
      }
    }

    method ClearProperty(key: Option<string>) returns (error: Option<Exception>)
      modifies this
      ensures var r := Clear(old(props), key);
              (error == if r.Thrown? then Some(r.error) else None)
              && props == if r.Normal? then r.value else old(props)
    {
      var r := Clear(props, key);
      match r {
        case Thrown(e) => error := Some(e);
        case Normal(p) => error := None; props := p;
      }
    }
  }
}
