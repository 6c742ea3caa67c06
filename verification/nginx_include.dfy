/** `generateNginxInclude` (libs/nginx-utils.ts): an include file with a
    commented header and one commented server block per active domain. The
    generation date is a parameter. */
module NginxInclude {
  import opened Text
  import opened Seqs
  import opened Domains
  import opened NginxGenerate

  /** The seven header lines, for `count` active domains. */
  function IncludeHeader(count: nat, date: string): seq<string> {
    ["# Generated by Local Domain Manager",
     "# Date: " + date,
     "# Domains: " + NatToString(count),
     "",
     "# Include this file in your nginx.conf:",
     "# include /path/to/local-domains.conf;",
     ""]
  }

  /** The description line, only for a non-empty description. */
  function DescriptionLines(d: Domain): seq<string> {
    if IsSetText(d.description) then ["# Description: " + d.description.value] else []
  }

  /** The lines pushed for one domain. */
  function IncludeChunk(d: Domain): seq<string> {
    ["# Domain: " + d.name] + DescriptionLines(d) + [GenerateNginxServerBlock(d, NoOptions), ""]
  }

  /** `IncludeChunk` as a function value. */
  function ChunkOf(): Domain -> seq<string> {
    d => IncludeChunk(d)
  }

  /** The domains' chunks, in order. */
  function IncludeBody(ds: seq<Domain>): seq<string> {
    FlatMap(ds, ChunkOf())
  }

  /** The lines `generateNginxInclude` joins. */
  function IncludeLines(domains: seq<Domain>, date: string): seq<string> {
    var active := Filter(domains, IsActive);
    IncludeHeader(|active|, date) + IncludeBody(active)
  }

  /** `generateNginxInclude(domains)` at the given date. */
  method GenerateNginxInclude(domains: seq<Domain>, date: string) returns (text: string)
    ensures text == Join(IncludeLines(domains, date), "\n")
  {
    var active := Filter(domains, IsActive);
    var header := IncludeHeader(|active|, date);
    var lines := header;
    for i := 0 to |active|
      invariant lines == header + IncludeBody(active[..i])
    {
      var chunk := DomainChunk(active[i]);
      BodyStep(active, i);
      AppendAssoc(header, IncludeBody(active[..i]), IncludeChunk(active[i]));
      lines := lines + chunk;
    }
    assert active[..|active|] == active;
    text := Join(lines, "\n");
  }

  /** The lines the loop pushes for one domain. */
  method DomainChunk(d: Domain) returns (chunk: seq<string>)
    ensures chunk == IncludeChunk(d)
  {
    chunk := ["# Domain: " + d.name];
    if IsSetText(d.description) {
      chunk := chunk + ["# Description: " + d.description.value];
    }
    chunk := chunk + [GenerateNginxServerBlock(d, NoOptions)];
    chunk := chunk + [""];
  }

  lemma BodyStep(ds: seq<Domain>, i: nat)
    requires i < |ds|
    ensures IncludeBody(ds[..i + 1]) == IncludeBody(ds[..i]) + IncludeChunk(ds[i])
  {
    FlatMapStep(ds, i, ChunkOf());
  }

  /** The header carries the date and the number of active domains. */
  lemma IncludeHeaderSpec(domains: seq<Domain>, date: string)
    ensures var lines := IncludeLines(domains, date);
      && |lines| >= 7
      && lines[1] == "# Date: " + date
      && lines[2] == "# Domains: " + NatToString(|Filter(domains, IsActive)|)
  {
  }

  /** Inactive domains make no difference. */
  lemma IncludeIgnoresInactive(domains: seq<Domain>, date: string)
    ensures IncludeLines(domains, date) == IncludeLines(Filter(domains, IsActive), date)
  {
    FilterIdempotent(domains, IsActive);
  }

  /** Each domain's lines: its name, a description line exactly when the
      description is non-empty, its server block with no options, and an
      empty line. */
  lemma IncludeChunkSpec(d: Domain)
    ensures var c := IncludeChunk(d);
      && |c| == (if IsSetText(d.description) then 4 else 3)
      && c[0] == "# Domain: " + d.name
      && (IsSetText(d.description) ==> c[1] == "# Description: " + d.description.value)
      && c[|c| - 2] == GenerateNginxServerBlock(d, NoOptions)
      && c[|c| - 1] == ""
  {
  }

  /** The body lists the domains' chunks in order: the body of a
      concatenation is the concatenation of the bodies. */
  lemma IncludeBodyAppend(a: seq<Domain>, b: seq<Domain>)
    ensures IncludeBody(a + b) == IncludeBody(a) + IncludeBody(b)
  {
    FlatMapAppend(a, b, ChunkOf());
  }
}
