/** Configuration of the SWFT client: built-in defaults, overridden by the
    `swft` section of the deployed function configuration when present
    (functions/src/config/swft.config.ts). */
module SwftConfig {
  import opened Wrappers
  import opened SwftTypes

  /** A configuration value: text, or a number such as the fee rate. */
  datatype ConfigValue = Text(s: string) | Number(n: FloatOf)

  /** `SWFT_defaults`. */
  const Defaults: map<string, ConfigValue> := map[
    "url" := Text("https://transfer.swft.pro"),
    "fee_rate" := Number(FloatOf("0.002")),
    "source_flag" := Text("Metaverse"),
    "developer_id" := Text(""),
    "user_no" := Text(""),
    "source_type" := Text("H5"),
    "equipment_no" := Text("")
  ]

  /** `getSWFTConfig(key, defaultValue)`. `section` is the `swft` section of
      the function configuration (`None` when there is none); `None` as a
      result stands for `undefined`. The configured value wins over the
      built-in default, and `defaultValue` is never consulted. */
  function GetSwftConfig(section: Option<map<string, ConfigValue>>, key: string,
                         defaultValue: Option<ConfigValue>): (r: Option<ConfigValue>)
    ensures section.Some? && key in section.value ==> r == Some(section.value[key])
    ensures (section.None? || key !in section.value) && key in Defaults ==> r == Some(Defaults[key])
    ensures r.None? <==> (section.None? || key !in section.value) && key !in Defaults
  {
    if section.Some? then
      if key in section.value then Some(section.value[key])
      else if key in Defaults then Some(Defaults[key]) else None
    else if key in Defaults then Some(Defaults[key]) else None
  }

  /** The built-in defaults the client falls back to. */
  lemma BuiltInDefaults(defaultValue: Option<ConfigValue>)
    ensures GetSwftConfig(None, "url", defaultValue) == Some(Text("https://transfer.swft.pro"))
    ensures GetSwftConfig(None, "source_flag", defaultValue) == Some(Text("Metaverse"))
    ensures GetSwftConfig(None, "source_type", defaultValue) == Some(Text("H5"))
    ensures GetSwftConfig(None, "fee_rate", defaultValue) == Some(Number(FloatOf("0.002")))
    ensures GetSwftConfig(None, "equipment_no", defaultValue) == Some(Text(""))
  {
  }

  /** The `defaultValue` argument has no influence on the result. */
  lemma DefaultValueIgnored(section: Option<map<string, ConfigValue>>, key: string,
                            d1: Option<ConfigValue>, d2: Option<ConfigValue>)
    ensures GetSwftConfig(section, key, d1) == GetSwftConfig(section, key, d2)
  {
  }
}
