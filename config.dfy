/** Startup configuration: the parsed command-line switches and the two enable
    flags of the hardware-gated workers. Parsing itself is not modelled; the
    switches arrive already parsed. */
module Config {

  /** `--enumerate`, `--disable-t265`, `--disable-d4xx`, `--sik-only`. */
  datatype Args = Args(enumerate: bool, disableT265: bool, disableD4xx: bool, sikOnly: bool)

  /** The module-level flags `t265_enabled` and `d4xx_enabled`. */
  datatype Flags = Flags(t265: bool, d4xx: bool)

  /** Both hardware workers start out enabled. */
  const Defaults: Flags := Flags(true, true)

  /** `after` only clears flags of `before`: no flag goes from false to true. */
  predicate Falls(before: Flags, after: Flags) {
    (after.t265 ==> before.t265) && (after.d4xx ==> before.d4xx)
  }

  /** The flag handling of the entry point: `--sik-only` clears both flags
      whatever else was given; otherwise each `--disable-…` switch clears only
      its own flag. */
  function ResolveFlags(args: Args, f: Flags): (r: Flags)
    ensures Falls(f, r)
    ensures args.sikOnly ==> !r.t265 && !r.d4xx
    ensures !args.sikOnly ==> (r.t265 <==> f.t265 && !args.disableT265)
    ensures !args.sikOnly ==> (r.d4xx <==> f.d4xx && !args.disableD4xx)
  {
    if args.sikOnly then
      Flags(false, false)
    else
      var f1 := if args.disableT265 then f.(t265 := false) else f;
      if args.disableD4xx then f1.(d4xx := false) else f1
  }

  /** Starting from the defaults, a hardware worker is enabled exactly when
      neither `--sik-only` nor its own `--disable-…` switch was given. */
  lemma StartupFlags(args: Args)
    ensures ResolveFlags(args, Defaults).t265 <==> !args.sikOnly && !args.disableT265
    ensures ResolveFlags(args, Defaults).d4xx <==> !args.sikOnly && !args.disableD4xx
  {
  }
}
